/**
 natneg/: NAT negotiation.  The clients of a session are paired, report results and are
 paired again; every packet is one step under the session's mutex.
 */
module Natneg {
  import opened MatchCommand

  const GAME_PORT: U8 := 0

  datatype Packet =
    | Init(portType: U8, clientIndex: U8, useGamePort: U8, localIP: string, localPort: U16, gameName: string)
    | ConnectReply(clientIndex: U8)
    | Report(clientIndex: U8, result: U8)
    | AddressCheck
    | Natify
    | Other

  /** What is known of a client. */
  datatype Person = Person(gameName: string, negotiateIP: string, localIP: string, serverIP: string)

  /** What a session holds: its clients, the results they told, whom each connects to, and who acknowledged. */
  datatype View = View(known: map<U8, Person>, told: map<U8, map<U8, U8>>, conn: map<U8, U8>, acks: set<U8>)

  const NOBODY := View(map[], map[], map[], {})

  class Client {
    const cookie: U32
    const index: U8
    var connectingIndex: U8
    var connectAck: bool
    var result: map<U8, U8>
    var negotiateIP: string
    var localIP: string
    var serverIP: string
    var gameName: string

    constructor (cookie: U32, index: U8)
      ensures this.cookie == cookie && this.index == index && connectingIndex == index && !connectAck
      ensures result == map[] && negotiateIP == "" && localIP == "" && serverIP == "" && gameName == ""
    {
      this.cookie, this.index, connectingIndex, connectAck := cookie, index, index, false;
      result, negotiateIP, localIP, serverIP, gameName := map[], "", "", "", "";
    }

    /** The fields after an init packet, given the addresses before it. */
    predicate Learned(p: Packet, addr: string, negotiate: string, local: string, server: string)
      requires p.Init?
      reads `gameName, `negotiateIP, `localIP, `serverIP
    {
      && gameName == p.gameName
      && negotiateIP == (if p.portType != GAME_PORT then addr else negotiate)
      && localIP == (if p.localPort != 0 then p.localIP else local)
      && serverIP == (if p.useGamePort == 0 || p.portType == GAME_PORT then addr else server)
    }

    /** What an init packet tells about the sender. */
    method Learn(p: Packet, addr: string)
      requires p.Init?
      modifies `gameName, `negotiateIP, `localIP, `serverIP
      ensures Learned(p, addr, old(negotiateIP), old(localIP), old(serverIP))
    {
      gameName := p.gameName;
      if p.portType != GAME_PORT {
        negotiateIP := addr;
      }
      if p.localPort != 0 {
        localIP := p.localIP;
      }
      if p.useGamePort == 0 || p.portType == GAME_PORT {
        serverIP := addr;
      }
    }

    function Who(): Person
      reads `gameName, `negotiateIP, `localIP, `serverIP
    {
      Person(gameName, negotiateIP, localIP, serverIP)
    }

    predicate IsMapped()
      reads `negotiateIP, `serverIP
    {
      negotiateIP != "" && serverIP != ""
    }
  }

  /** What qr2 is told once both clients of a pair have reported. */
  datatype Outcome = Outcome(result: U8, first: string, second: string)

  // ---------- Who connects to whom

  /** A mapped client that connects to nobody. */
  predicate Free(conn: map<U8, U8>, mapped: set<U8>, c: U8) {
    c in conn && c in mapped && conn[c] == c
  }

  /** Connecting indices name clients, and connecting clients and their targets have known addresses. */
  predicate ConnectionsOK(conn: map<U8, U8>, mapped: set<U8>) {
    forall c :: c in conn ==> conn[c] in conn && (conn[c] != c ==> c in mapped && conn[c] in mapped)
  }

  predicate Settled(results: map<U8, set<U8>>, a: U8, b: U8) {
    a in results && b in results && b in results[a] && a in results[b]
  }

  /** Unchanged, or free before and now connecting to one that was free too, is not now, and had no result of it or it of that. */
  predicate PairedOne(before: map<U8, U8>, conn: map<U8, U8>, mapped: set<U8>, results: map<U8, set<U8>>, c: U8)
    requires c in before && c in conn
  {
    || conn[c] == before[c]
    || (Free(before, mapped, c) && conn[c] != c && Free(before, mapped, conn[c]) && !Free(conn, mapped, conn[c])
        && !Settled(results, c, conn[c]))
  }

  predicate Paired(before: map<U8, U8>, conn: map<U8, U8>, mapped: set<U8>, results: map<U8, set<U8>>) {
    conn.Keys == before.Keys && forall c :: c in conn ==> PairedOne(before, conn, mapped, results, c)
  }

  /** Of those seen, nobody is left for a to send a request to. */
  predicate Exhausted(conn: map<U8, U8>, mapped: set<U8>, results: map<U8, set<U8>>, a: U8, seen: set<U8>) {
    Free(conn, mapped, a) ==> forall d :: d in seen && d != a && Free(conn, mapped, d) ==> d in results && a in results[d]
  }

  /** One pairing step on the connections: sender and destination point at each other. */
  function Joined(conn: map<U8, U8>, id: U8, destID: U8): map<U8, U8> {
    conn[id := destID][destID := id]
  }

  lemma JoinedConnections(conn: map<U8, U8>, mapped: set<U8>, id: U8, destID: U8)
    requires ConnectionsOK(conn, mapped) && id in mapped && id in conn && Free(conn, mapped, destID) && id != destID
    ensures ConnectionsOK(Joined(conn, id, destID), mapped)
    ensures !Free(Joined(conn, id, destID), mapped, id) && !Free(Joined(conn, id, destID), mapped, destID)
    ensures forall c :: Free(Joined(conn, id, destID), mapped, c) ==> Free(conn, mapped, c)
  {
  }

  lemma JoinedPaired(before: map<U8, U8>, conn: map<U8, U8>, mapped: set<U8>, results: map<U8, set<U8>>, id: U8, destID: U8)
    requires Paired(before, conn, mapped, results) && Free(before, mapped, id) && id in conn && Free(conn, mapped, destID) && id != destID
    requires destID in results && id !in results[destID]
    ensures Paired(before, Joined(conn, id, destID), mapped, results)
  {
    hide PairedOne, Joined;
    FreeBefore(before, conn, mapped, results, destID);
    JoinedKeys(conn, id, destID);
    forall c | c in conn
      ensures c in Joined(conn, id, destID) && PairedOne(before, Joined(conn, id, destID), mapped, results, c)
    {
      JoinedOne(before, conn, mapped, results, id, destID, c);
    }
  }

  lemma JoinedKeys(conn: map<U8, U8>, id: U8, destID: U8)
    requires id in conn && destID in conn
    ensures Joined(conn, id, destID).Keys == conn.Keys
  {
  }

  lemma JoinedOne(before: map<U8, U8>, conn: map<U8, U8>, mapped: set<U8>, results: map<U8, set<U8>>, id: U8, destID: U8, c: U8)
    requires before.Keys == conn.Keys && id in conn && destID in conn && id != destID && c in conn
    requires Free(before, mapped, id) && Free(before, mapped, destID) && destID in results && id !in results[destID]
    requires PairedOne(before, conn, mapped, results, c)
    ensures PairedOne(before, Joined(conn, id, destID), mapped, results, c)
  {
  }

  /** With only two free clients, each new connection goes both ways. */
  lemma PairsAreMutual(before: map<U8, U8>, conn: map<U8, U8>, mapped: set<U8>, results: map<U8, set<U8>>, a: U8, b: U8)
    requires Paired(before, conn, mapped, results) && Free(before, mapped, a) && Free(before, mapped, b) && a != b
    requires forall c :: Free(before, mapped, c) ==> c == a || c == b
    ensures conn[a] == b <==> conn[b] == a
    ensures conn[a] == a || conn[a] == b
  {
    assert PairedOne(before, conn, mapped, results, a) && PairedOne(before, conn, mapped, results, b);
  }

  /** No report is lost, and every connection is an old one or not of a pair that has reported both ways. */
  ghost predicate Kept(before: map<U8, U8>, results: map<U8, set<U8>>, conn: map<U8, U8>, known: map<U8, set<U8>>) {
    && before.Keys <= conn.Keys && results.Keys <= known.Keys
    && (forall c :: c in results ==> results[c] <= known[c])
    && (forall c :: c in conn && conn[c] != c && conn[c] in conn ==>
          (c in before && conn[c] == before[c]) || !Settled(known, c, conn[c]))
  }

  /** Who had reported on each other, and did not connect then, does not connect now. */
  ghost predicate NeverAgain(before: map<U8, U8>, results: map<U8, set<U8>>, conn: map<U8, U8>, known: map<U8, set<U8>>) {
    && results.Keys <= known.Keys && (forall c :: c in results ==> results[c] <= known[c])
    && forall a, b :: a != b && Settled(results, a, b) && a in before && before[a] != b ==> a in conn && conn[a] != b
  }

  lemma NeverYet(before: map<U8, U8>, results: map<U8, set<U8>>)
    ensures NeverAgain(before, results, before, results)
  {
  }

  lemma NeverStill(before: map<U8, U8>, results: map<U8, set<U8>>, conn: map<U8, U8>, known: map<U8, set<U8>>, later: map<U8, U8>, more: map<U8, set<U8>>)
    requires NeverAgain(before, results, conn, known) && Kept(conn, known, later, more) && later.Keys == more.Keys
    ensures NeverAgain(before, results, later, more)
  {
  }

  // ---------- What each packet does to a session

  ghost function MappedIn(known: map<U8, Person>): set<U8> {
    set c | c in known && known[c].negotiateIP != "" && known[c].serverIP != ""
  }

  ghost function HeardOf(told: map<U8, map<U8, U8>>): map<U8, set<U8>> {
    map c | c in told :: told[c].Keys
  }

  /** Of any two free clients each has reported on the other. */
  ghost predicate NoneWaiting(v: View) {
    forall a, b :: a != b && Free(v.conn, MappedIn(v.known), a) && Free(v.conn, MappedIn(v.known), b) ==> Settled(HeardOf(v.told), a, b)
  }

  /** Free clients of these connections were paired until none could be. */
  ghost predicate AllPaired(before: map<U8, U8>, w: View) {
    Paired(before, w.conn, MappedIn(w.known), HeardOf(w.told)) && NoneWaiting(w)
  }

  /** An init packet counts if it makes sense and, for a new client, everybody plays the game it names. */
  ghost predicate Welcome(known: map<U8, Person>, p: Packet)
    requires p.Init?
  {
    && p.portType <= 3 && p.useGamePort <= 1 && (p.useGamePort == 0 ==> p.portType != 0)
    && (p.clientIndex in known || forall c :: c in known ==> known[c].gameName == p.gameName)
  }

  /** The sender's name is set, and the addresses this packet tells; the others stay. */
  ghost function Introduced(known: map<U8, Person>, p: Packet, addr: string): map<U8, Person>
    requires p.Init?
  {
    var was := if p.clientIndex in known then known[p.clientIndex] else Person("", "", "", "");
    known[p.clientIndex :=
      Person(p.gameName,
             if p.portType == 0 then was.negotiateIP else addr,
             if p.localPort == 0 then was.localIP else p.localIP,
             if p.portType == 0 || p.useGamePort == 0 then addr else was.serverIP)]
  }

  /** The clients after this packet. */
  ghost function Meeting(known: map<U8, Person>, p: Packet, addr: string): map<U8, Person> {
    if p.Init? && Welcome(known, p) then Introduced(known, p, addr) else known
  }

  ghost predicate InitStep(v: View, p: Packet, w: View)
    requires p.Init?
  {
    var id := p.clientIndex;
    if !Welcome(v.known, p) then w == v
    else
      && w.told == (if id in v.told then v.told else v.told[id := map[]])
      && var conn := if id in v.conn then v.conn else v.conn[id := id];
         if id in MappedIn(w.known) then AllPaired(conn, w) else w.conn == conn
  }

  /** The result goes to the one connected to, the reporter is free, and both having reported QR2 is told. */
  ghost predicate ReportStep(v: View, id: U8, result: U8, w: View, outcome: Option<Outcome>) {
    if id !in v.conn || id !in v.told then w.told == v.told && outcome.None? && AllPaired(v.conn, w)
    else
      var to := v.conn[id];
      var more: map<U8, U8> := v.told[id][to := result];
      && w.told == v.told[id := more] && AllPaired(v.conn[id := id], w)
      && to in w.told && to in w.known && id in w.known
      && outcome == if id !in w.told[to] then None
                    else Some(Outcome(if w.told[to][id] != 1 then w.told[to][id] else result, w.known[id].serverIP, w.known[to].serverIP))
  }

  /** The first part of a report of a listed client. */
  ghost predicate Reported(v: View, id: U8, result: U8, mid: View, outcome: Option<Outcome>) {
    && id in v.conn && id in v.told && id in v.known && mid.known == v.known && mid.conn == v.conn[id := id]
    && var to := v.conn[id];
       var more: map<U8, U8> := v.told[id][to := result];
       && mid.told == v.told[id := more] && to in mid.told && to in mid.known
       && outcome == if id !in mid.told[to] then None
                     else Some(Outcome(if mid.told[to][id] != 1 then mid.told[to][id] else result, mid.known[id].serverIP, mid.known[to].serverIP))
  }

  lemma ReportTaken(v: View, id: U8, result: U8, mid: View, w: View, outcome: Option<Outcome>)
    requires if id in v.conn then Reported(v, id, result, mid, outcome) else mid == v && outcome.None?
    requires w.known == mid.known && w.told == mid.told && AllPaired(mid.conn, w)
    ensures ReportStep(v, id, result, w, outcome)
  {
  }

  /** No report is lost, and every connection is an old one or to itself. */
  ghost predicate Carries(v: View, mid: View) {
    && v.told.Keys <= mid.told.Keys == mid.conn.Keys
    && (forall c :: c in v.told ==> v.told[c].Keys <= mid.told[c].Keys)
    && (forall c :: c in mid.conn ==> mid.conn[c] == c || (c in v.conn && mid.conn[c] == v.conn[c]))
  }

  lemma CameCarries(v: View, id: U8, mid: View)
    requires Came(v, id, mid) && v.told.Keys == v.conn.Keys
    ensures Carries(v, mid)
  {
  }

  lemma ReportedCarries(v: View, id: U8, result: U8, mid: View, outcome: Option<Outcome>)
    requires v.told.Keys == v.conn.Keys && (id in v.conn ==> Reported(v, id, result, mid, outcome)) && (id !in v.conn ==> mid == v)
    ensures Carries(v, mid)
  {
  }

  /** QR2 is told exactly when both have reported on each other. */
  lemma ToldWhenSettled(v: View, id: U8, result: U8, w: View, outcome: Option<Outcome>)
    requires ReportStep(v, id, result, w, outcome) && v.conn.Keys == v.told.Keys
    ensures outcome.Some? <==> id in v.conn && Settled(HeardOf(w.told), id, v.conn[id])
  {
  }

  /** The step of a session on one packet. */
  ghost predicate Steps(v: View, p: Packet, addr: string, w: View, outcome: Option<Outcome>) {
    && w.known == Meeting(v.known, p, addr)
    && match p
       case Init(_, _, _, _, _, _) => outcome.None? && InitStep(v, p, w)
       case ConnectReply(id) => outcome.None? && w == v.(acks := if id in v.known then v.acks + {id} else v.acks)
       case Report(id, result) => ReportStep(v, id, result, w, outcome)
       case _ => outcome.None? && w == v
  }

  /** The client was there, or is there now and nothing is known of it. */
  ghost predicate Came(v: View, id: U8, w: View) {
    && (id in v.known <==> id in v.told) && (id in v.known <==> id in v.conn) && id in w.known
    && if id in v.known then w.known == v.known && w.told == v.told && w.conn == v.conn
       else w.known == v.known[id := Person(w.known[id].gameName, "", "", "")] && w.told == v.told[id := map[]] && w.conn == v.conn[id := id]
  }

  /** A client of whom nothing is known is introduced as one that is not there. */
  lemma SameIntroduction(known: map<U8, Person>, mid: map<U8, Person>, p: Packet, addr: string)
    requires p.Init?
    requires mid == known || (p.clientIndex !in known && p.clientIndex in mid
                              && mid == known[p.clientIndex := Person(mid[p.clientIndex].gameName, "", "", "")])
    ensures Introduced(mid, p, addr) == Introduced(known, p, addr)
  {
  }

  lemma InitRefused(v: View, p: Packet, addr: string)
    requires p.Init? && !Welcome(v.known, p)
    ensures Steps(v, p, addr, v, None)
  {
  }

  lemma InitTaken(v: View, p: Packet, addr: string, conn: map<U8, U8>, w: View)
    requires p.Init? && Welcome(v.known, p) && w.known == Introduced(v.known, p, addr)
    requires w.told == if p.clientIndex in v.told then v.told else v.told[p.clientIndex := map[]]
    requires conn == if p.clientIndex in v.conn then v.conn else v.conn[p.clientIndex := p.clientIndex]
    requires if p.clientIndex in MappedIn(w.known) then AllPaired(conn, w) else w.conn == conn
    ensures Steps(v, p, addr, w, None)
  {
  }

  // ---------- Runs of a session

  /** Each view comes from the one before by a step on its packet. */
  ghost predicate Follows(trace: seq<View>, packets: seq<(Packet, string)>, outcomes: seq<Option<Outcome>>) {
    && |trace| == |packets| + 1 && |outcomes| == |packets|
    && forall i :: 0 <= i < |packets| ==> Steps(trace[i], packets[i].0, packets[i].1, trace[i + 1], outcomes[i])
  }

  ghost predicate SameKeys(v: View) {
    v.known.Keys == v.told.Keys == v.conn.Keys
  }

  lemma NobodyWaits()
    ensures NoneWaiting(NOBODY)
  {
  }

  /** A client without both addresses is not free. */
  lemma NotYetMapped(v: View, id: U8, w: View)
    requires NoneWaiting(v) && id !in MappedIn(w.known) && forall c :: c in w.known && c != id ==> c in v.known && w.known[c] == v.known[c]
    requires w.conn == (if id in v.conn then v.conn else v.conn[id := id])
    requires w.told == (if id in v.told then v.told else v.told[id := map[]])
    ensures NoneWaiting(w)
  {
    forall a, b | a != b && Free(w.conn, MappedIn(w.known), a) && Free(w.conn, MappedIn(w.known), b)
      ensures Settled(HeardOf(w.told), a, b)
    {
      assert Free(v.conn, MappedIn(v.known), a) && Free(v.conn, MappedIn(v.known), b);
    }
  }

  lemma StillSameKeys(v: View, p: Packet, addr: string, w: View, outcome: Option<Outcome>)
    requires Steps(v, p, addr, w, outcome) && SameKeys(v)
    ensures SameKeys(w)
  {
    hide NoneWaiting, Welcome, MappedIn, HeardOf, PairedOne;
  }

  /** No step leaves two free clients that could be paired. */
  lemma StillNoneWaiting(v: View, p: Packet, addr: string, w: View, outcome: Option<Outcome>)
    requires Steps(v, p, addr, w, outcome) && SameKeys(v) && NoneWaiting(v)
    ensures SameKeys(w) && NoneWaiting(w)
  {
    hide Settled, Welcome, Free, MappedIn, HeardOf, Paired;
    StillSameKeys(v, p, addr, w, outcome);
    if p.Init? && Welcome(v.known, p) && p.clientIndex !in MappedIn(w.known) {
      NotYetMapped(v, p.clientIndex, w);
    }
  }

  /** The clients after these packets, one after the other. */
  ghost function Met(known: map<U8, Person>, packets: seq<(Packet, string)>): map<U8, Person> {
    if packets == [] then known
    else
      var last := packets[|packets| - 1];
      Meeting(Met(known, packets[..|packets| - 1]), last.0, last.1)
  }

  /** After every run exactly the clients are known that its packets introduced, and nobody is left waiting. */
  lemma {:induction false} RunMeets(trace: seq<View>, packets: seq<(Packet, string)>, outcomes: seq<Option<Outcome>>)
    requires Follows(trace, packets, outcomes) && SameKeys(trace[0]) && NoneWaiting(trace[0])
    ensures var w := trace[|packets|]; w.known == Met(trace[0].known, packets) && SameKeys(w) && NoneWaiting(w)
  {
    hide NoneWaiting, SameKeys, Meeting;
    var n := |packets|;
    if n > 0 {
      RunMeets(trace[..n], packets[..n - 1], outcomes[..n - 1]);
      var p := packets[n - 1];
      assert Steps(trace[n - 1], p.0, p.1, trace[n], outcomes[n - 1]);
      StillNoneWaiting(trace[n - 1], p.0, p.1, trace[n], outcomes[n - 1]);
    }
  }

  datatype Part = Presence | NegotiateAddress | ServerAddress

  /** What an init packet that makes sense tells of client c. */
  ghost predicate Tells(p: Packet, c: U8, part: Part) {
    && p.Init? && p.clientIndex == c && p.portType <= 3 && p.useGamePort <= 1 && (p.useGamePort == 0 ==> p.portType != 0)
    && match part
       case Presence => true
       case NegotiateAddress => p.portType != 0
       case ServerAddress => p.portType == 0 || p.useGamePort == 0
  }

  ghost predicate SomeTells(packets: seq<(Packet, string)>, c: U8, part: Part) {
    exists i :: 0 <= i < |packets| && Tells(packets[i].0, c, part)
  }

  lemma LastTells(packets: seq<(Packet, string)>, c: U8, part: Part)
    requires packets != []
    ensures SomeTells(packets, c, part) <==>
              SomeTells(packets[..|packets| - 1], c, part) || Tells(packets[|packets| - 1].0, c, part)
  {
    hide Tells;
    var rest := packets[..|packets| - 1];
    if SomeTells(packets, c, part) {
      var i :| 0 <= i < |packets| && Tells(packets[i].0, c, part);
      assert i < |rest| ==> Tells(rest[i].0, c, part);
    }
    if SomeTells(rest, c, part) {
      var i :| 0 <= i < |rest| && Tells(rest[i].0, c, part);
      assert Tells(packets[i].0, c, part);
    }
  }

  /** All packets have a sender address, and all init packets name this game. */
  ghost predicate OneGame(packets: seq<(Packet, string)>, game: string) {
    forall i :: 0 <= i < |packets| ==> packets[i].1 != "" && (packets[i].0.Init? ==> packets[i].0.gameName == game)
  }

  lemma {:induction false} GameKept(packets: seq<(Packet, string)>, game: string)
    requires OneGame(packets, game)
    ensures forall d :: d in Met(map[], packets) ==> Met(map[], packets)[d].gameName == game
  {
    if packets != [] {
      GameKept(packets[..|packets| - 1], game);
    }
  }

  /** Of one game, exactly the clients are known that sent an init packet, with the addresses they told. */
  lemma {:induction false} Introduces(packets: seq<(Packet, string)>, game: string, c: U8)
    requires OneGame(packets, game)
    ensures var known := Met(map[], packets);
            && (c in known <==> SomeTells(packets, c, Presence))
            && (c in known ==> (known[c].negotiateIP != "" <==> SomeTells(packets, c, NegotiateAddress)))
            && (c in known ==> (known[c].serverIP != "" <==> SomeTells(packets, c, ServerAddress)))
  {
    if packets != [] {
      hide Tells, SomeTells, Meeting;
      var rest, p := packets[..|packets| - 1], packets[|packets| - 1];
      Introduces(rest, game, c);
      GameKept(rest, game);
      OneIntroduced(Met(map[], rest), p.0, p.1, game, c);
      LastTells(packets, c, Presence);
      LastTells(packets, c, NegotiateAddress);
      LastTells(packets, c, ServerAddress);
      PartIsPresence(rest, c, NegotiateAddress);
      PartIsPresence(rest, c, ServerAddress);
    }
  }

  lemma PartIsPresence(packets: seq<(Packet, string)>, c: U8, part: Part)
    ensures SomeTells(packets, c, part) ==> SomeTells(packets, c, Presence)
  {
    if SomeTells(packets, c, part) {
      var i :| 0 <= i < |packets| && Tells(packets[i].0, c, part);
      assert Tells(packets[i].0, c, Presence);
    }
  }

  lemma OneIntroduced(known: map<U8, Person>, p: Packet, addr: string, game: string, c: U8)
    requires (forall d :: d in known ==> known[d].gameName == game) && addr != "" && (p.Init? ==> p.gameName == game)
    ensures var now := Meeting(known, p, addr);
            && (c in now ==> now[c].gameName == game)
            && (c in now <==> c in known || Tells(p, c, Presence))
            && (c in now ==> (now[c].negotiateIP != "" <==>
                  (c in known && known[c].negotiateIP != "") || Tells(p, c, NegotiateAddress)))
            && (c in now ==> (now[c].serverIP != "" <==>
                  (c in known && known[c].serverIP != "") || Tells(p, c, ServerAddress)))
  {
  }

  /**
   However the packets of one game arrive and whatever order pairs are made in: of two clients
   that have told both their addresses, one is connecting, unless each has reported on the other.
   */
  lemma NobodyLeftOut(trace: seq<View>, packets: seq<(Packet, string)>, outcomes: seq<Option<Outcome>>, game: string, a: U8, b: U8)
    requires Follows(trace, packets, outcomes) && trace[0] == NOBODY && OneGame(packets, game) && a != b
    requires SomeTells(packets, a, NegotiateAddress) && SomeTells(packets, a, ServerAddress)
    requires SomeTells(packets, b, NegotiateAddress) && SomeTells(packets, b, ServerAddress)
    ensures var w := trace[|packets|];
            && a in w.conn && b in w.conn && a in w.told && b in w.told
            && (w.conn[a] == a && w.conn[b] == b ==> b in w.told[a] && a in w.told[b])
  {
    hide Tells, SomeTells, Steps, Meeting;
    var w := trace[|packets|];
    RunMeets(trace, packets, outcomes);
    Introduces(packets, game, a);
    Introduces(packets, game, b);
    PartIsPresence(packets, a, ServerAddress);
    PartIsPresence(packets, b, ServerAddress);
    assert Free(w.conn, MappedIn(w.known), a) <==> w.conn[a] == a;
    assert Free(w.conn, MappedIn(w.known), b) <==> w.conn[b] == b;
  }

  class Session {
    const version: U8
    const cookie: U32
    var clients: map<U8, Client>

    constructor (version: U8, cookie: U32)
      ensures Valid() && this.version == version && this.cookie == cookie && clients == map[] && Now() == NOBODY
    {
      this.version, this.cookie, clients := version, cookie, map[];
    }

    function Connecting(): map<U8, U8>
      reads this, clients.Values`connectingIndex
    {
      map c | c in clients :: clients[c].connectingIndex
    }

    function Mapped(): set<U8>
      reads this, clients.Values`negotiateIP, clients.Values`serverIP
    {
      set c | c in clients && clients[c].negotiateIP != "" && clients[c].serverIP != ""
    }

    function Results(): map<U8, set<U8>>
      reads this, clients.Values`result
    {
      map c | c in clients :: clients[c].result.Keys
    }

    function Known(): map<U8, Person>
      reads this, clients.Values`gameName, clients.Values`negotiateIP, clients.Values`localIP, clients.Values`serverIP
    {
      map c | c in clients :: clients[c].Who()
    }

    function Told(): map<U8, map<U8, U8>>
      reads this, clients.Values`result
    {
      map c | c in clients :: clients[c].result
    }

    function Acks(): set<U8>
      reads this, clients.Values`connectAck
    {
      set c | c in clients && clients[c].connectAck
    }

    ghost function Now(): View
      reads this, clients.Values
    {
      View(Known(), Told(), Connecting(), Acks())
    }

    lemma NowMaps()
      ensures Mapped() == MappedIn(Known()) && Results() == HeardOf(Told())
      ensures Known().Keys == Told().Keys == Connecting().Keys == clients.Keys
    {
    }

    lemma EntriesOf()
      ensures forall c :: c in clients ==> Known()[c] == clients[c].Who() && Told()[c] == clients[c].result && Connecting()[c] == clients[c].connectingIndex
    {
    }

    ghost predicate ClientOK(id: U8)
      requires id in clients
      reads this, clients.Values`result
    {
      clients[id].index == id && clients[id].cookie == cookie && clients[id].result.Keys <= clients.Keys
    }

    /** Clients are listed under their index and have results of listed clients only. */
    ghost predicate ClientsOK()
      reads this, clients.Values`result
    {
      forall id :: id in clients ==> ClientOK(id)
    }

    ghost predicate Valid()
      reads this, clients.Values`result, clients.Values`connectingIndex, clients.Values`negotiateIP, clients.Values`serverIP
    {
      ClientsOK() && ConnectionsOK(Connecting(), Mapped())
    }

    lemma Apart(a: U8, b: U8)
      requires ClientsOK() && a in clients && b in clients && a != b
      ensures clients[a] != clients[b]
    {
      assert ClientOK(a) && ClientOK(b);
    }

    // ---------- sendConnectRequests

    method Pair(id: U8, destID: U8)
      requires ClientsOK() && id in clients && destID in clients && id != destID
      modifies {clients[id], clients[destID]}`connectingIndex, {clients[id], clients[destID]}`connectAck
      ensures Connecting() == Joined(old(Connecting()), id, destID)
      ensures !clients[id].connectAck && !clients[destID].connectAck
    {
      var sender, destination := clients[id], clients[destID];
      forall c | c in clients
        ensures (c != id ==> clients[c] != sender) && (c != destID ==> clients[c] != destination)
      {
        if c != id { Apart(c, id); }
        if c != destID { Apart(c, destID); }
      }
      sender.connectingIndex := destID;
      sender.connectAck := false;
      destination.connectingIndex := id;
      destination.connectAck := false;
    }

    /** The outer loop: every client that is free when its turn comes is a sender. */
    method SendConnectRequests()
      requires Valid()
      modifies clients.Values`connectingIndex, clients.Values`connectAck
      ensures Valid() && Paired(old(Connecting()), Connecting(), Mapped(), Results())
      ensures AllPaired(old(Connecting()), Now())
    {
      hide Paired, ConnectionsOK, Exhausted, ClientsOK, Connecting, Mapped, Results, Free, Joined, Known, Told, Acks, MappedIn, HeardOf, Settled;
      ghost var before, mapped, results := Connecting(), Mapped(), Results();
      var left := clients.Keys;
      NothingYet(before, mapped, results);
      while left != {}
        invariant left <= clients.Keys && ConnectionsOK(Connecting(), mapped) && Paired(before, Connecting(), mapped, results)
        invariant forall a :: a in clients && a !in left ==> Exhausted(Connecting(), mapped, results, a, clients.Keys)
        decreases left
      {
        var id :| id in left;
        left := left - {id};
        FreeIff(id);
        if !clients[id].IsMapped() || clients[id].connectingIndex != id {
          NotFree(Connecting(), mapped, results, id, clients.Keys);
          continue;
        }
        ghost var conn := Connecting();
        FreeBefore(before, conn, mapped, results, id);
        SendFrom(id, before);
        forall a | a in clients && a !in left && a != id
          ensures Exhausted(Connecting(), mapped, results, a, clients.Keys)
        {
          StillExhausted(conn, Connecting(), mapped, results, a, clients.Keys);
        }
      }
      assert Connecting().Keys == clients.Keys by { ConnectingKeys(); }
      AllSettled(Connecting(), mapped, results);
      NowMaps();
    }

    /** The inner loop, which does not look at the sender again: it may request several connections. */
    method SendFrom(id: U8, ghost before: map<U8, U8>)
      requires ClientsOK() && id in clients && ConnectionsOK(Connecting(), Mapped()) && Paired(before, Connecting(), Mapped(), Results())
      requires Free(before, Mapped(), id) && id in Mapped()
      modifies clients.Values`connectingIndex, clients.Values`connectAck
      ensures ConnectionsOK(Connecting(), Mapped()) && Paired(before, Connecting(), Mapped(), Results())
      ensures Exhausted(Connecting(), Mapped(), Results(), id, clients.Keys)
      ensures forall c :: Free(Connecting(), Mapped(), c) ==> Free(old(Connecting()), Mapped(), c)
    {
      hide Paired, ConnectionsOK, Exhausted, ClientsOK, Connecting, Mapped, Results, Free, Joined;
      ghost var mapped, results := Mapped(), Results();
      var others := clients.Keys;
      SeenNone(Connecting(), mapped, results, id, clients.Keys - others);
      while others != {}
        invariant others <= clients.Keys && ConnectionsOK(Connecting(), mapped) && Paired(before, Connecting(), mapped, results)
        invariant Exhausted(Connecting(), mapped, results, id, clients.Keys - others)
        invariant forall c :: Free(Connecting(), mapped, c) ==> Free(old(Connecting()), mapped, c)
        decreases others
      {
        var destID :| destID in others;
        ghost var seen := clients.Keys - others;
        others := others - {destID};
        FreeIff(destID);
        ResultIff(destID, id);
        if id == destID || !clients[destID].IsMapped() || clients[destID].connectingIndex != destID || id in clients[destID].result {
          SeenOne(Connecting(), mapped, results, id, destID, seen, clients.Keys - others);
          continue;
        }
        ghost var conn := Connecting();
        ConnectingKeys();
        JoinedConnections(conn, mapped, id, destID);
        JoinedPaired(before, conn, mapped, results, id, destID);
        Pair(id, destID);
        NotFree(Connecting(), mapped, results, id, clients.Keys - others);
      }
      assert clients.Keys - others == clients.Keys;
    }

    // ---------- Packets

    method PlaySameGame(gameName: string) returns (ok: bool)
      ensures ok == forall c :: c in clients ==> clients[c].gameName == gameName
    {
      var left := clients.Keys;
      while left != {}
        invariant left <= clients.Keys && forall c :: c in clients && c !in left ==> clients[c].gameName == gameName
        decreases left
      {
        var c :| c in left;
        left := left - {c};
        if clients[c].gameName != gameName {
          return false;
        }
      }
      return true;
    }

    /** A new client; refused while another client of the session plays a different game. */
    method AddClient(id: U8, gameName: string) returns (ok: bool)
      requires Valid() && id !in clients
      modifies this`clients
      ensures Valid() && ok == forall c :: c in old(clients) ==> old(clients)[c].gameName == gameName
      ensures ok ==> id in clients && fresh(clients[id]) && clients == old(clients)[id := clients[id]]
      ensures ok ==> clients[id].connectingIndex == id && clients[id].result == map[]
      ensures ok ==> clients[id].negotiateIP == "" && clients[id].localIP == "" && clients[id].serverIP == ""
      ensures !ok ==> clients == old(clients)
    {
      hide ConnectionsOK, Mapped, Connecting;
      ok := PlaySameGame(gameName);
      if !ok {
        return;
      }
      var client := new Client(cookie, id);
      clients := clients[id := client];
      forall c | c in clients
        ensures ClientOK(c)
      {
        assert c != id ==> old(ClientOK(c));
      }
      AddedMaps(id);
      OneMore(old(Connecting()), Mapped(), id);
    }

    twostate lemma AddedMaps(new id: U8)
      requires id !in old(clients) && id in clients && clients == old(clients)[id := clients[id]]
      requires clients[id].connectingIndex == id && clients[id].negotiateIP == "" && forall c :: c in old(clients) ==> unchanged(clients[c])
      ensures Mapped() == old(Mapped()) && id !in old(Connecting()) && Connecting() == old(Connecting())[id := id]
    {
    }

    /** Known addresses are never forgotten. */
    method SetAddresses(id: U8, p: Packet, addr: string)
      requires Valid() && id in clients && p.Init? && addr != ""
      modifies {clients[id]}`gameName, {clients[id]}`negotiateIP, {clients[id]}`localIP, {clients[id]}`serverIP
      ensures Valid() && Mapped() == old(Mapped()) + (if clients[id].IsMapped() then {id} else {})
      ensures Known() == old(Known())[id := clients[id].Who()]
      ensures clients[id].Learned(p, addr, old(clients[id].negotiateIP), old(clients[id].localIP), old(clients[id].serverIP))
    {
      hide ClientsOK, ConnectionsOK;
      var sender := clients[id];
      forall c | c in clients && c != id
        ensures clients[c] != sender
      {
        Apart(c, id);
      }
      sender.Learn(p, addr);
      OneLearned(id);
      MoreMapped(Connecting(), old(Mapped()), Mapped());
    }

    twostate lemma OneLearned(id: U8)
      requires clients == old(clients) && id in clients && forall c :: c in clients && c != id ==> unchanged(clients[c])
      requires old(clients[id].negotiateIP) != "" ==> clients[id].negotiateIP != ""
      requires old(clients[id].serverIP) != "" ==> clients[id].serverIP != ""
      ensures Known() == old(Known())[id := clients[id].Who()]
      ensures Mapped() == old(Mapped()) + (if clients[id].IsMapped() then {id} else {})
    {
    }

    predicate InitOK(p: Packet)
      requires p.Init?
    {
      p.portType <= 3 && p.useGamePort <= 1 && !(p.useGamePort == 0 && p.portType == GAME_PORT)
    }

    /** No pair that has reported both ways is paired by this step, and no report is forgotten. */
    twostate predicate Advanced()
      reads this, clients.Values
    {
      && old(clients).Keys <= clients.Keys
      && (forall c :: c in old(clients) ==> clients[c] == old(clients)[c] && old(clients[c].result).Keys <= clients[c].result.Keys)
      && (forall c :: c in clients && clients[c].connectingIndex != c && clients[c].connectingIndex in clients ==>
            (c in old(clients) && clients[c].connectingIndex == old(clients[c].connectingIndex))
            || !Settled(Results(), c, clients[c].connectingIndex))
    }

    /** A step whose last act is pairing. */
    twostate lemma AdvancedByPairing(new before: map<U8, U8>)
      requires old(clients).Keys <= clients.Keys == before.Keys && Paired(before, Connecting(), Mapped(), Results())
      requires forall c :: c in old(clients) ==> clients[c] == old(clients)[c] && old(clients[c].result).Keys <= clients[c].result.Keys
      requires forall c :: c in clients ==> before[c] == c || (c in old(clients) && before[c] == old(clients[c].connectingIndex))
      ensures Advanced()
    {
      forall c | c in clients
        ensures PairedOne(before, Connecting(), Mapped(), Results(), c)
      {
      }
    }

    twostate lemma OneCame(id: U8)
      requires id !in old(clients) && id in clients && clients == old(clients)[id := clients[id]]
      requires forall c :: c in old(clients) ==> unchanged(clients[c])
      requires clients[id].connectingIndex == id && clients[id].result == map[]
      requires clients[id].negotiateIP == "" && clients[id].localIP == "" && clients[id].serverIP == ""
      ensures Came(old(Now()), id, Now())
    {
    }

    /** Between the first part of a step and the pairing nothing else changed. */
    twostate lemma AdvancedCarried(mid: View)
      requires Carries(old(Now()), mid) && Told() == mid.told && Paired(mid.conn, Connecting(), Mapped(), Results())
      requires forall c :: c in old(clients) ==> c in clients && clients[c] == old(clients)[c]
      ensures Advanced()
    {
      forall c | c in old(clients)
        ensures old(clients[c].result).Keys <= clients[c].result.Keys
      {
        assert Told()[c] == clients[c].result && old(Told())[c] == old(clients[c].result);
      }
      assert Connecting().Keys == mid.conn.Keys;
      AdvancedByPairing(mid.conn);
    }

    /** The client of an init packet is known, or comes in if all others play its game. */
    method Greet(id: U8, gameName: string) returns (ok: bool)
      requires Valid()
      modifies this`clients
      ensures Valid() && ok == (id in old(clients) || forall c :: c in old(clients) ==> old(clients)[c].gameName == gameName)
      ensures !ok || id in old(clients) ==> clients == old(clients)
      ensures ok ==> Came(old(Now()), id, Now())
      ensures ok && id !in old(clients) ==>
                && id in clients && fresh(clients[id]) && clients == old(clients)[id := clients[id]] && clients[id].connectingIndex == id
                && clients[id].negotiateIP == "" && clients[id].localIP == "" && clients[id].serverIP == "" && clients[id].result == map[]
    {
      hide Valid;
      ok := true;
      NowMaps();
      if id !in clients {
        ok := AddClient(id, gameName);
        if ok {
          OneCame(id);
        }
      }
    }

    /** Its addresses are set, and with both known all free clients are paired. */
    method Place(id: U8, p: Packet, addr: string)
      requires Valid() && id in clients && p.Init? && addr != ""
      modifies {clients[id]}`gameName, {clients[id]}`negotiateIP, {clients[id]}`localIP, {clients[id]}`serverIP
      modifies clients.Values`connectingIndex, clients.Values`connectAck
      ensures Valid() && Paired(old(Connecting()), Connecting(), Mapped(), Results())
      ensures clients[id].Learned(p, addr, old(clients[id].negotiateIP), old(clients[id].localIP), old(clients[id].serverIP))
      ensures !clients[id].IsMapped() ==> Connecting() == old(Connecting())
      ensures clients[id].IsMapped() ==> AllPaired(old(Connecting()), Now())
      ensures Known() == old(Known())[id := clients[id].Who()]
    {
      hide Valid, Paired, ConnectionsOK, Mapped, Results, Connecting, Known, Told, Acks, AllPaired;
      ghost var before := Connecting();
      SetAddresses(id, p, addr);
      if !clients[id].IsMapped() {
        NothingYet(before, Mapped(), Results());
        return;
      }
      SendConnectRequests();
    }

    method HandleInit(p: Packet, addr: string)
      requires Valid() && p.Init? && addr != ""
      modifies this`clients, clients.Values
      ensures Valid() && Advanced() && Steps(old(Now()), p, addr, Now(), None)
      ensures forall c :: c in clients ==> fresh(clients[c]) || (c in old(clients) && clients[c] == old(clients)[c])
    {
      hide Valid, Paired, Advanced, Mapped, Results, Connecting, Known, Told, Acks, Client.Learned, Steps, Welcome, Came;
      ghost var v := Now();
      NowMaps();
      WelcomeIff(p);
      if !InitOK(p) {
        AdvancedNot();
        InitRefused(v, p, addr);
        return;
      }
      var ok := Greet(p.clientIndex, p.gameName);
      if !ok {
        AdvancedNot();
        InitRefused(v, p, addr);
        return;
      }
      ghost var mid := Now();
      Welcomed(p, addr, v);
      CameCarries(v, p.clientIndex, mid);
      AdvancedCarried(mid);
    }

    /** Placing a sender that was there, or came in just now. */
    method Welcomed(p: Packet, addr: string, ghost v: View)
      requires Valid() && p.Init? && p.clientIndex in clients && addr != "" && Welcome(v.known, p) && Came(v, p.clientIndex, Now())
      modifies clients.Values`gameName, clients.Values`negotiateIP, clients.Values`localIP, clients.Values`serverIP
      modifies clients.Values`connectingIndex, clients.Values`connectAck
      ensures Valid() && Paired(old(Connecting()), Connecting(), Mapped(), Results())
      ensures clients[p.clientIndex].Learned(p, addr, old(clients[p.clientIndex].negotiateIP), old(clients[p.clientIndex].localIP),
                                             old(clients[p.clientIndex].serverIP))
      ensures Steps(v, p, addr, Now(), None)
    {
      hide Valid, Paired, Mapped, Results, Connecting, Known, Told, Acks, Client.Learned, Introduced, Steps, Welcome, AllPaired, MappedIn;
      ghost var mid := Now();
      Introduce(p, addr);
      SameIntroduction(v.known, mid.known, p, addr);
      InitTaken(v, p, addr, mid.conn, Now());
    }

    /** Placing the sender, as the maps show it. */
    method Introduce(p: Packet, addr: string)
      requires Valid() && p.Init? && p.clientIndex in clients && addr != ""
      modifies clients.Values`gameName, clients.Values`negotiateIP, clients.Values`localIP, clients.Values`serverIP
      modifies clients.Values`connectingIndex, clients.Values`connectAck
      ensures Valid() && Paired(old(Connecting()), Connecting(), Mapped(), Results())
      ensures clients[p.clientIndex].Learned(p, addr, old(clients[p.clientIndex].negotiateIP), old(clients[p.clientIndex].localIP),
                                             old(clients[p.clientIndex].serverIP))
      ensures Known() == Introduced(old(Known()), p, addr)
      ensures if p.clientIndex in MappedIn(Known()) then AllPaired(old(Connecting()), Now()) else Connecting() == old(Connecting())
    {
      hide Valid, Paired, Mapped, Results, Connecting, Known, Told, Acks, Client.Learned, Introduced, AllPaired, MappedIn;
      KnownOf(p.clientIndex);
      Place(p.clientIndex, p, addr);
      IntroducedBy(old(Known()), p, addr);
      NowMaps();
      MappedOf(p.clientIndex);
    }

    lemma KnownOf(id: U8)
      requires id in clients
      ensures id in Known() && Known()[id] == clients[id].Who()
    {
    }

    lemma MappedOf(id: U8)
      requires id in clients
      ensures id in Mapped() <==> clients[id].IsMapped()
    {
    }

    lemma WelcomeIff(p: Packet)
      requires p.Init?
      ensures Welcome(Known(), p) <==> InitOK(p) && (p.clientIndex in clients || forall c :: c in clients ==> clients[c].gameName == p.gameName)
    {
      assert forall c :: c in clients ==> Known()[c].gameName == clients[c].gameName;
      assert forall c :: c in Known() ==> clients[c].gameName == Known()[c].gameName;
    }

    /** The sender's fields are the ones its introduction gives it. */
    lemma IntroducedBy(known: map<U8, Person>, p: Packet, addr: string)
      requires p.Init? && p.clientIndex in clients
      requires var was := if p.clientIndex in known then known[p.clientIndex] else Person("", "", "", "");
               clients[p.clientIndex].Learned(p, addr, was.negotiateIP, was.localIP, was.serverIP)
      ensures known[p.clientIndex := clients[p.clientIndex].Who()] == Introduced(known, p, addr)
    {
    }

    twostate lemma AdvancedNot()
      requires clients == old(clients) && unchanged(clients.Values)
      ensures Advanced() && Connecting() == old(Connecting())
    {
    }

    method HandleConnectReply(id: U8)
      requires Valid()
      modifies (if id in clients then {clients[id]} else {})`connectAck
      ensures Valid() && Acks() == old(Acks()) + (if id in clients then {id} else {})
    {
      hide ConnectionsOK;
      if id in clients {
        forall c | c in clients && c != id
          ensures clients[c] != clients[id]
        {
          Apart(c, id);
        }
        clients[id].connectAck := true;
      }
    }

    /** The result goes to whoever the client was connecting to; the client is free again. */
    method RecordResult(id: U8, result: U8) returns (outcome: Option<Outcome>)
      requires Valid() && id in clients
      modifies {clients[id]}`result, {clients[id]}`connectingIndex, {clients[id]}`connectAck
      ensures Valid() && Connecting() == old(Connecting())[id := id]
      ensures Told() == old(Told())[id := clients[id].result]
      ensures var to := old(clients[id].connectingIndex);
              && clients[id].result == old(clients[id].result)[to := result] && to in clients
              && outcome == if id !in clients[to].result then None
                            else Some(Outcome(if clients[to].result[id] != 1 then clients[to].result[id] else result,
                                              clients[id].serverIP, clients[to].serverIP))
    {
      hide ConnectionsOK;
      var client := clients[id];
      forall c | c in clients && c != id
        ensures clients[c] != client
      {
        Apart(c, id);
      }
      ghost var conn := Connecting();
      TargetListed(conn, Mapped(), id);
      var to := client.connectingIndex;
      client.result := client.result[to := result];
      var connecting := clients[to];
      client.connectingIndex := id;
      client.connectAck := false;
      forall c | c in clients
        ensures ClientOK(c)
      {
        assert old(ClientOK(c));
      }
      OneFreed(conn, Mapped(), id);
      assert Connecting() == conn[id := id];
      assert Told() == old(Told())[id := client.result];
      outcome := None;
      if id in connecting.result {
        var final := result;
        if connecting.result[id] != 1 {
          final := connecting.result[id];
        }
        outcome := Some(Outcome(final, client.serverIP, connecting.serverIP));
      }
    }

    /** The outcome is told when the other client has reported on this one before. */
    method HandleReport(id: U8, result: U8) returns (outcome: Option<Outcome>)
      requires Valid()
      modifies clients.Values
      ensures Valid() && Advanced() && clients == old(clients)
      ensures Known() == old(Known()) && ReportStep(old(Now()), id, result, Now(), outcome)
      ensures outcome.Some? <==> id in clients && Settled(Results(), id, old(Connecting())[id])
    {
      hide Valid, Paired, Settled, HeardOf, Mapped, Results, Connecting, Known, Told, Acks, ReportStep, Reported, AllPaired, Carries, Advanced, Free, MappedIn, NoneWaiting;
      outcome := None;
      ghost var v := Now();
      NowMaps();
      if id in clients {
        outcome := TakeReport(id, result);
      }
      assert Known() == v.known;
      ghost var mid := Now();
      ReportedCarries(v, id, result, mid, outcome);
      SendConnectRequests();
      assert Told() == mid.told && Known() == mid.known;
      AdvancedCarried(mid);
      ReportTaken(v, id, result, mid, Now(), outcome);
      NowMaps();
      ToldWhenSettled(v, id, result, Now(), outcome);
    }

    method TakeReport(id: U8, result: U8) returns (outcome: Option<Outcome>)
      requires Valid() && id in clients
      modifies {clients[id]}`result, {clients[id]}`connectingIndex, {clients[id]}`connectAck
      ensures Valid() && Reported(old(Now()), id, result, Now(), outcome) && Known() == old(Known())
    {
      hide Valid, ConnectionsOK, Known, Told, Connecting, Acks;
      ghost var to := clients[id].connectingIndex;
      NowMaps();
      EntriesOf();
      outcome := RecordResult(id, result);
      EntriesOf();
    }

    method HandlePacket(p: Packet, addr: string) returns (outcome: Option<Outcome>)
      requires Valid() && addr != ""
      modifies this`clients, clients.Values
      ensures Valid() && Advanced() && Steps(old(Now()), p, addr, Now(), outcome)
      ensures forall c :: c in clients ==> fresh(clients[c]) || (c in old(clients) && clients[c] == old(clients)[c])
    {
      hide Valid, Advanced, Known, Told, Connecting, Acks, ReportStep, InitStep;
      NowMaps();
      outcome := None;
      match p {
        case Init(_, _, _, _, _, _) => HandleInit(p, addr);
        case ConnectReply(id) =>
          HandleConnectReply(id);
          AdvancedQuiet();
        case Report(id, result) => outcome := HandleReport(id, result);
        case AddressCheck => AdvancedQuiet();
        case Natify => AdvancedQuiet();
        case Other => AdvancedQuiet();
      }
    }

    twostate lemma AdvancedQuiet()
      requires clients == old(clients)
      requires forall c :: c in clients ==> clients[c].result == old(clients[c].result) && clients[c].connectingIndex == old(clients[c].connectingIndex)
      ensures Advanced()
    {
    }

    /** A step as the connections and results show it. */
    twostate lemma AdvancedShown(new before: map<U8, U8>, results: map<U8, set<U8>>)
      requires Advanced() && before == old(Connecting()) && results == old(Results())
      ensures Kept(before, results, Connecting(), Results())
    {
    }

    /**
     Every run of packets keeps the session valid and every report in it, and a pair that has
     reported both ways and is not connecting never connects again.
     */
    method Run(packets: seq<(Packet, string)>) returns (outcomes: seq<Option<Outcome>>, ghost trace: seq<View>)
      requires Valid() && forall i :: 0 <= i < |packets| ==> packets[i].1 != ""
      modifies this`clients, clients.Values
      ensures Valid() && Follows(trace, packets, outcomes) && trace[0] == old(Now()) && trace[|packets|] == Now()
      ensures forall a, b :: a in old(clients) && a != b && old(Settled(Results(), a, b)) && old(clients[a].connectingIndex) != b ==>
                a in clients && clients[a].connectingIndex != b
      ensures forall c :: c in old(clients) ==> c in clients && clients[c] == old(clients)[c] && old(clients[c].result).Keys <= clients[c].result.Keys
    {
      hide Valid, Settled, Advanced, Kept, NeverAgain, Results, Connecting, Now, Steps;
      outcomes, trace := [], [Now()];
      ghost var before, results := Connecting(), Results();
      NeverYet(before, results);
      MapsOf();
      for i := 0 to |packets|
        invariant Valid() && NeverAgain(before, results, Connecting(), Results())
        invariant |trace| == i + 1 && trace[0] == old(Now()) && trace[i] == Now() && Follows(trace, packets[..i], outcomes)
        invariant forall c :: c in old(clients) ==> c in clients && clients[c] == old(clients)[c] && old(clients[c].result).Keys <= clients[c].result.Keys
        invariant forall c :: c in clients ==> fresh(clients[c]) || (c in old(clients) && clients[c] == old(clients)[c])
      {
        ghost var conn, known := Connecting(), Results();
        var outcome := RunStep(packets[i].0, packets[i].1);
        assert packets[..i + 1][..i] == packets[..i];
        outcomes, trace := outcomes + [outcome], trace + [Now()];
        MapsOf();
        NeverStill(before, results, conn, known, Connecting(), Results());
      }
      assert packets[..|packets|] == packets;
      MapsOf();
      NeverMeans(before, results);
    }

    method RunStep(p: Packet, addr: string) returns (outcome: Option<Outcome>)
      requires Valid() && addr != ""
      modifies this`clients, clients.Values
      ensures Valid() && Kept(old(Connecting()), old(Results()), Connecting(), Results()) && Steps(old(Now()), p, addr, Now(), outcome)
      ensures forall c :: c in old(clients) ==> c in clients && clients[c] == old(clients)[c] && old(clients[c].result).Keys <= clients[c].result.Keys
      ensures forall c :: c in clients ==> fresh(clients[c]) || (c in old(clients) && clients[c] == old(clients)[c])
    {
      hide Valid, Kept, Settled, Steps, Now;
      outcome := HandlePacket(p, addr);
      AdvancedShown(old(Connecting()), old(Results()));
    }

    lemma NeverMeans(before: map<U8, U8>, results: map<U8, set<U8>>)
      requires NeverAgain(before, results, Connecting(), Results())
      ensures forall a, b :: a != b && Settled(results, a, b) && a in before && before[a] != b ==> a in clients && clients[a].connectingIndex != b
    {
    }

    lemma MapsOf()
      ensures Connecting().Keys == Results().Keys == clients.Keys
      ensures forall c :: c in clients ==> Connecting()[c] == clients[c].connectingIndex && Results()[c] == clients[c].result.Keys
    {
    }

    lemma ConnectingKeys()
      ensures Connecting().Keys == clients.Keys
    {
    }

    lemma FreeIff(id: U8)
      requires ClientsOK() && id in clients
      ensures Free(Connecting(), Mapped(), id) <==> clients[id].IsMapped() && clients[id].connectingIndex == id
    {
    }

    lemma ResultIff(a: U8, b: U8)
      requires a in clients
      ensures a in Results() && (b in Results()[a] <==> b in clients[a].result)
    {
    }
  }

  /** The sessions by cookie. */
  class Server {
    var sessions: map<U32, Session>

    constructor ()
      ensures Valid() && sessions == map[]
    {
      sessions := map[];
    }

    ghost function Footprint(): set<object>
      reads this, sessions.Values
    {
      (set s: Session | s in sessions.Values :: s as object)
      + (set s: Session, c: Client | s in sessions.Values && c in s.clients.Values :: c as object)
    }

    ghost predicate Valid()
      reads this, Footprint()
    {
      forall k :: k in sessions ==> sessions[k].cookie == k && sessions[k].Valid() && NoneWaiting(sessions[k].Now())
    }

    /** Sessions with different cookies share no clients. */
    lemma SessionsApart(a: U32, b: U32)
      requires Valid() && a in sessions && b in sessions && a != b
      ensures sessions[a].clients.Values !! sessions[b].clients.Values
    {
      CookiesOf(a);
      CookiesOf(b);
    }

    lemma CookiesOf(k: U32)
      requires Valid() && k in sessions
      ensures forall c :: c in sessions[k].clients.Values ==> c.cookie == k
    {
      forall c | c in sessions[k].clients.Values
        ensures c.cookie == k
      {
        var i :| i in sessions[k].clients && sessions[k].clients[i] == c;
        assert sessions[k].ClientOK(i);
      }
    }

    method FindSession(cookie: U32, version: U8)
      requires Valid()
      modifies this
      ensures Valid() && cookie in sessions
      ensures sessions == if cookie in old(sessions) then old(sessions) else old(sessions)[cookie := sessions[cookie]]
      ensures cookie !in old(sessions) ==>
                fresh(sessions[cookie]) && sessions[cookie].clients == map[] && sessions[cookie].version == version
      ensures ViewAt(cookie) == old(ViewAt(cookie))
    {
      hide Session.Valid, NoneWaiting, Session.Known, Session.Told, Session.Connecting, Session.Acks;
      if cookie !in sessions {
        NobodyWaits();
        var session := new Session(version, cookie);
        sessions := sessions[cookie := session];
      }
    }

    /** What may change for a cookie: its session and the clients of it. */
    ghost function Own(cookie: U32): set<object>
      reads this, SessionOf(cookie)
    {
      if cookie in sessions then {sessions[cookie]} + sessions[cookie].clients.Values else {}
    }

    ghost function SessionOf(cookie: U32): set<Session>
      reads this
    {
      if cookie in sessions then {sessions[cookie]} else {}
    }

    lemma OthersApart(cookie: U32)
      requires Valid()
      ensures forall k :: k in sessions && k != cookie ==> sessions[k] !in Own(cookie) && sessions[k].clients.Values !! Own(cookie)
    {
      if cookie in sessions {
        forall k | k in sessions && k != cookie
          ensures sessions[k].clients.Values !! sessions[cookie].clients.Values && sessions[k] != sessions[cookie]
        {
          SessionsApart(k, cookie);
        }
      }
    }

    ghost function ViewAt(cookie: U32): View
      reads this, SessionOf(cookie), Own(cookie)
    {
      if cookie in sessions then sessions[cookie].Now() else NOBODY
    }

    method Forward(cookie: U32, p: Packet, addr: string) returns (outcome: Option<Outcome>)
      requires Valid() && cookie in sessions && addr != ""
      modifies Own(cookie)
      ensures Valid() && Steps(old(ViewAt(cookie)), p, addr, ViewAt(cookie), outcome)
    {
      hide Valid, Session.Valid, Steps, NoneWaiting, Session.Known, Session.Told, Session.Connecting, Session.Acks;
      OthersApart(cookie);
      SessionAt(cookie);
      var session := sessions[cookie];
      ghost var v := session.Now();
      session.NowMaps();
      outcome := session.HandlePacket(p, addr);
      StillNoneWaiting(v, p, addr, session.Now(), outcome);
      StillValid(cookie);
    }

    lemma SessionAt(cookie: U32)
      requires Valid() && cookie in sessions
      ensures sessions[cookie].cookie == cookie && sessions[cookie].Valid() && NoneWaiting(sessions[cookie].Now())
    {
    }

    twostate lemma StillValid(cookie: U32)
      requires old(Valid()) && sessions == old(sessions) && cookie in sessions
      requires sessions[cookie].Valid() && NoneWaiting(sessions[cookie].Now())
      requires forall k :: k in sessions && k != cookie ==> unchanged(sessions[k]) && unchanged(sessions[k].clients.Values)
      ensures Valid()
    {
      hide Session.Valid, NoneWaiting, Session.Known, Session.Told, Session.Connecting, Session.Acks;
      forall k | k in sessions && k != cookie
        ensures sessions[k].Valid() && NoneWaiting(sessions[k].Now())
      {
        assert old(sessions[k].Valid()) && old(NoneWaiting(sessions[k].Now()));
      }
    }

    /** No session is lost, and of those with another cookie nothing changed. */
    twostate predicate OthersKept(cookie: U32)
      reads *
    {
      && (forall k :: k in old(sessions) ==> k in sessions && sessions[k] == old(sessions)[k])
      && (forall k :: k in old(sessions) && k != cookie ==> unchanged(old(sessions)[k]) && unchanged(old(sessions[k].clients.Values)))
    }

    /**
     A packet creates its session when there is none, unless it is of a kind without a session;
     one of another version is ignored.  No other session changes, nor any client of one.
     */
    method HandleConnection(cookie: U32, version: U8, p: Packet, addr: string) returns (outcome: Option<Outcome>)
      requires Valid() && addr != ""
      modifies this, Own(cookie)
      ensures Valid()
      ensures p.AddressCheck? || p.Natify? ==> outcome.None? && unchanged(this) && unchanged(old(Own(cookie)))
      ensures !(p.AddressCheck? || p.Natify?) ==> sessions.Keys == old(sessions).Keys + {cookie}
      ensures OthersKept(cookie)
      ensures cookie !in old(sessions) && cookie in sessions ==> fresh(sessions[cookie]) && sessions[cookie].version == version
      ensures cookie in old(sessions) && old(sessions)[cookie].version != version ==> outcome.None? && unchanged(old(Own(cookie)))
      // Every other packet makes its session take the step of that packet.
      ensures !(p.AddressCheck? || p.Natify?) && (cookie in old(sessions) ==> old(sessions)[cookie].version == version) ==>
                Steps(old(ViewAt(cookie)), p, addr, ViewAt(cookie), outcome)
    {
      hide Valid, Steps, Session.Now;
      outcome := None;
      if p.AddressCheck? || p.Natify? {
        return;
      }
      OthersApart(cookie);
      FindSession(cookie, version);
      if sessions[cookie].version != version {
        return;
      }
      outcome := Forward(cookie, p, addr);
    }

    /** After 30 seconds: the session goes, and clients still connecting are told to give up. */
    method CloseSession(cookie: U32) returns (cancelled: set<U8>)
      requires Valid()
      modifies this
      ensures Valid() && sessions == old(sessions) - {cookie}
      ensures cookie in old(sessions) ==>
                cancelled == set c | c in old(sessions)[cookie].clients && old(sessions)[cookie].clients[c].connectingIndex != c
    {
      hide NoneWaiting, Session.Known, Session.Told, Session.Connecting, Session.Acks, ConnectionsOK;
      cancelled := {};
      if cookie in sessions {
        var session := sessions[cookie];
        assert forall c :: c in session.clients ==> session.ClientOK(c);
        cancelled := set c | c in session.clients && session.clients[c].connectingIndex != session.clients[c].index;
      }
      sessions := sessions - {cookie};
    }
  }

  lemma OneMore(conn: map<U8, U8>, mapped: set<U8>, id: U8)
    requires ConnectionsOK(conn, mapped) && id !in conn
    ensures ConnectionsOK(conn[id := id], mapped)
  {
  }

  lemma TargetListed(conn: map<U8, U8>, mapped: set<U8>, id: U8)
    requires ConnectionsOK(conn, mapped) && id in conn
    ensures conn[id] in conn
  {
  }

  lemma OneFreed(conn: map<U8, U8>, mapped: set<U8>, id: U8)
    requires ConnectionsOK(conn, mapped) && id in conn
    ensures ConnectionsOK(conn[id := id], mapped)
  {
  }

  lemma MoreMapped(conn: map<U8, U8>, mapped: set<U8>, more: set<U8>)
    requires ConnectionsOK(conn, mapped) && mapped <= more
    ensures ConnectionsOK(conn, more)
  {
  }

  lemma NothingYet(before: map<U8, U8>, mapped: set<U8>, results: map<U8, set<U8>>)
    ensures Paired(before, before, mapped, results)
  {
  }

  lemma NotFree(conn: map<U8, U8>, mapped: set<U8>, results: map<U8, set<U8>>, a: U8, seen: set<U8>)
    requires !Free(conn, mapped, a)
    ensures Exhausted(conn, mapped, results, a, seen)
  {
  }

  lemma FreeBefore(before: map<U8, U8>, conn: map<U8, U8>, mapped: set<U8>, results: map<U8, set<U8>>, a: U8)
    requires Paired(before, conn, mapped, results) && Free(conn, mapped, a)
    ensures Free(before, mapped, a)
  {
    assert PairedOne(before, conn, mapped, results, a);
  }

  lemma SeenNone(conn: map<U8, U8>, mapped: set<U8>, results: map<U8, set<U8>>, a: U8, seen: set<U8>)
    requires seen == {}
    ensures Exhausted(conn, mapped, results, a, seen)
  {
  }

  lemma SeenOne(conn: map<U8, U8>, mapped: set<U8>, results: map<U8, set<U8>>, a: U8, d: U8, seen: set<U8>, more: set<U8>)
    requires Exhausted(conn, mapped, results, a, seen) && more <= seen + {d}
    requires a == d || !Free(conn, mapped, d) || (d in results && a in results[d])
    ensures Exhausted(conn, mapped, results, a, more)
  {
  }

  lemma StillExhausted(conn: map<U8, U8>, after: map<U8, U8>, mapped: set<U8>, results: map<U8, set<U8>>, a: U8, seen: set<U8>)
    requires Exhausted(conn, mapped, results, a, seen) && forall c :: Free(after, mapped, c) ==> Free(conn, mapped, c)
    ensures Exhausted(after, mapped, results, a, seen)
  {
  }

  lemma AllSettled(conn: map<U8, U8>, mapped: set<U8>, results: map<U8, set<U8>>)
    requires forall a :: a in conn ==> Exhausted(conn, mapped, results, a, conn.Keys)
    ensures forall a, b :: a != b && Free(conn, mapped, a) && Free(conn, mapped, b) ==> Settled(results, a, b)
  {
  }
}
