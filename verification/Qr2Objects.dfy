/** qr2/: the sessions, logins and groups of the matchmaking server, linked by pointers. */
module Qr2Objects {
  import opened MatchCommand
  import opened Decimal

  datatype Addr = Addr(ip: U32, port: U16)

  /** makeLookupAddr: port above the 32 address bits. */
  function LookupKey(a: Addr): nat {
    a.port * 0x1_0000_0000 + a.ip
  }

  lemma LookupKeyInjective(a: Addr, b: Addr)
    ensures LookupKey(a) == LookupKey(b) <==> a == b
  {
    if a.port < b.port {
      assert LookupKey(a) < LookupKey(b);
    } else if b.port < a.port {
      assert LookupKey(b) < LookupKey(a);
    }
  }

  /** Reading a missing key of a Go string map gives the empty string. */
  function Get(m: map<string, string>, k: string): string {
    if k in m then m[k] else ""
  }

  datatype SessionRecord = SessionRecord(
    addr: Addr, sessionID: U32, searchID: nat, authenticated: bool, lastKeepAlive: int, data: map<string, string>,
    packetCount: U32, reservation: MatchCommandData, reservationID: nat, groupName: string)

  datatype LoginRecord = LoginRecord(
    profileID: U32, inGameName: string, friendKeyGame: string, gpPublicIP: string, deviceAuthenticated: bool,
    restricted: bool, openHost: bool)

  datatype GroupRecord = GroupRecord(
    groupName: string, gameName: string, groupID: U32, matchType: string, mkwRegion: string, lastJoinIndex: nat)

  class LoginInfo {
    const profileID: U32
    const gpPublicIP: string
    const friendKeyGame: string
    const inGameName: string
    const restricted: bool
    var deviceAuthenticated: bool
    var openHost: bool
    var session: Session?

    constructor (profileID: U32, inGameName: string, friendKeyGame: string, gpPublicIP: string, deviceAuthenticated: bool, restricted: bool, openHost: bool)
      ensures this.profileID == profileID && this.inGameName == inGameName && this.friendKeyGame == friendKeyGame
      ensures this.gpPublicIP == gpPublicIP && this.restricted == restricted
      ensures this.deviceAuthenticated == deviceAuthenticated && this.openHost == openHost && session == null
    {
      this.profileID, this.inGameName, this.friendKeyGame, this.gpPublicIP := profileID, inGameName, friendKeyGame, gpPublicIP;
      this.restricted, this.deviceAuthenticated, this.openHost := restricted, deviceAuthenticated, openHost;
      session := null;
    }

    function Record(): LoginRecord
      reads this
    {
      LoginRecord(profileID, inGameName, friendKeyGame, gpPublicIP, deviceAuthenticated, restricted, openHost)
    }
  }

  class Session {
    const addr: Addr
    var sessionID: U32
    var searchID: nat
    var authenticated: bool
    var lastKeepAlive: int
    var data: map<string, string>
    var packetCount: U32
    var reservation: MatchCommandData
    var reservationID: nat
    var groupName: string
    var login: LoginInfo?
    var group: Group?

    constructor (addr: Addr, sessionID: U32, data: map<string, string>, now: int)
      ensures this.addr == addr && this.sessionID == sessionID && this.data == data && lastKeepAlive == now
      ensures searchID == 0 && !authenticated && packetCount == 0 && reservation == NO_DATA && reservationID == 0
      ensures groupName == "" && login == null && group == null
    {
      this.addr, this.sessionID, this.data, lastKeepAlive := addr, sessionID, data, now;
      searchID, authenticated, packetCount, reservation, reservationID := 0, false, 0, NO_DATA, 0;
      groupName, login, group := "", null, null;
    }

    constructor Restored(addr: Addr, r: SessionRecord)
      ensures this.addr == addr && sessionID == r.sessionID && searchID == r.searchID && authenticated == r.authenticated
      ensures lastKeepAlive == r.lastKeepAlive && data == r.data && packetCount == r.packetCount
      ensures reservation == r.reservation && reservationID == r.reservationID && groupName == r.groupName
      ensures login == null && group == null
    {
      this.addr, sessionID, searchID, authenticated := addr, r.sessionID, r.searchID, r.authenticated;
      lastKeepAlive, data, packetCount := r.lastKeepAlive, r.data, r.packetCount;
      reservation, reservationID, groupName := r.reservation, r.reservationID, r.groupName;
      login, group := null, null;
    }

    /** The fields gob writes out: the exported ones. */
    function Record(): SessionRecord
      reads this
    {
      SessionRecord(addr, sessionID, searchID, authenticated, lastKeepAlive, data, packetCount, reservation, reservationID, groupName)
    }

    function JoinIndex(): Option<int>
      reads this`data
    {
      ParseInt(Get(data, "+joinindex"))
    }

    function Pid(): string
      reads this`data
    {
      Get(data, "dwc_pid")
    }

    /** Can take over as server of its group. */
    predicate CanHost()
      reads this`data
    {
      Get(data, "dwc_hoststate") == "2" && JoinIndex().Some?
    }
  }

  class Group {
    const groupName: string
    const gameName: string
    var groupID: U32
    var matchType: string
    var mkwRegion: string
    var lastJoinIndex: nat
    var server: Session?
    var players: set<Session>

    constructor (groupName: string, gameName: string, groupID: U32, matchType: string, mkwRegion: string, server: Session)
      ensures this.groupName == groupName && this.gameName == gameName && this.groupID == groupID
      ensures this.matchType == matchType && this.mkwRegion == mkwRegion
      ensures lastJoinIndex == 0 && this.server == server && players == {server}
    {
      this.groupName, this.gameName, this.groupID := groupName, gameName, groupID;
      this.matchType, this.mkwRegion := matchType, mkwRegion;
      lastJoinIndex, this.server, players := 0, server, {server};
    }

    function Record(): GroupRecord
      reads this
    {
      GroupRecord(groupName, gameName, groupID, matchType, mkwRegion, lastJoinIndex)
    }

    /** A group decoded from a file has neither players nor a server yet. */
    constructor Restored(groupName: string, gameName: string, groupID: U32, matchType: string, mkwRegion: string, lastJoinIndex: nat)
      ensures this.groupName == groupName && this.gameName == gameName && this.groupID == groupID
      ensures this.matchType == matchType && this.mkwRegion == mkwRegion
      ensures this.lastJoinIndex == lastJoinIndex && server == null && players == {}
    {
      this.groupName, this.gameName, this.groupID := groupName, gameName, groupID;
      this.matchType, this.mkwRegion := matchType, mkwRegion;
      this.lastJoinIndex, server, players := lastJoinIndex, null, {};
    }

    /** The host is missing only when nobody can host, and otherwise has the lowest join index. */
    ghost predicate IsServerChoice(s: Session?)
      reads this, players
    {
      if s == null then forall p :: p in players ==> !p.CanHost()
      else s in players && s.CanHost() && forall p :: p in players && p.CanHost() ==> s.JoinIndex().value <= p.JoinIndex().value
    }

    ghost predicate DistinctIndices()
      reads this, players
    {
      forall p, q :: p in players && q in players && p != q ==> p.JoinIndex() != q.JoinIndex()
    }

    /** With distinct join indices the choice does not depend on the order the players are visited in. */
    lemma ServerChoiceUnique(s: Session?, t: Session?)
      requires DistinctIndices() && IsServerChoice(s) && IsServerChoice(t)
      ensures s == t
    {
      if s != null && t != null {
        assert s.JoinIndex() == t.JoinIndex();
      }
    }

    /** A server that names a match type gives it to its group. */
    predicate FollowsServer()
      reads this, if server == null then {} else {server}
    {
      server != null && Get(server.data, "dwc_mtype") != "" ==> matchType == Get(server.data, "dwc_mtype")
    }

    method UpdateMatchType()
      modifies this`matchType
      ensures FollowsServer()
      ensures server == null || Get(server.data, "dwc_mtype") == "" ==> matchType == old(matchType)
    {
      if server == null || Get(server.data, "dwc_mtype") == "" {
        return;
      }
      matchType := Get(server.data, "dwc_mtype");
    }

    /** The map of players is visited in an arbitrary order. */
    method FindNewServer()
      modifies this`server, this`matchType
      ensures IsServerChoice(server) && FollowsServer()
      ensures server == null || Get(server.data, "dwc_mtype") == "" ==> matchType == old(matchType)
    {
      var best: Session? := null;
      var bestIndex := -1;
      var left := players;
      while left != {}
        invariant left <= players
        invariant best == null ==> forall p :: p in players - left ==> !p.CanHost()
        invariant best != null ==> best in players && best.CanHost() && best.JoinIndex() == Some(bestIndex)
        invariant best != null ==> forall p :: p in players - left && p.CanHost() ==> bestIndex <= p.JoinIndex().value
        decreases left
      {
        var s :| s in left;
        left := left - {s};
        if Get(s.data, "dwc_hoststate") != "2" {
          continue;
        }
        var joinIndex := s.JoinIndex();
        if joinIndex.None? {
          continue;
        }
        if best == null || joinIndex.value < bestIndex {
          best, bestIndex := s, joinIndex.value;
        }
      }
      server := best;
      UpdateMatchType();
    }
  }

  function NormalizeMKWRegion(rk: string): string {
    if |rk| == 4 && ("vs_" <= rk || "bt_" <= rk) && '0' <= rk[3] < '6' then rk[..2] else rk
  }
}
