/**
 qr2/: the four tables of the matchmaking server.  Every method is one section the source
 runs under its global mutex.  `Valid` is what every such step keeps.
 */
module Qr2 {
  import opened MatchCommand
  import opened Decimal
  import opened Qr2Objects

  /** What client messages did to reservations, oldest first. */
  datatype Entry =
    | Reserved(who: Session, host: nat)
    | Cleared(who: Session, host: nat)

  /** The last thing recorded about who and host, reservation or clearing, is a reservation. */
  ghost predicate Outstanding(journal: seq<Entry>, who: Session, host: nat) {
    && journal != []
    && var last := journal[|journal| - 1];
       && last != Cleared(who, host)
       && (last == Reserved(who, host) || Outstanding(journal[..|journal| - 1], who, host))
  }

  /**
   How a session came into a group: as its founder, by a request from GPCM, from a saved file, or
   by the answer of the session with search ID `host` when the journal had `known` entries.
   */
  datatype Way = Founder | ThroughGPCM | Restored | Reply(host: nat, known: nat)

  datatype Entrance = Entrance(who: Session, into: Group, way: Way)

  /** An answer brings a session in only if its reservation with the answering session still stood. */
  ghost predicate Justified(journal: seq<Entry>, who: Session, way: Way) {
    way.Reply? ==> way.known <= |journal| && Outstanding(journal[..way.known], who, way.host)
  }

  ghost predicate AllJustified(journal: seq<Entry>, entrances: set<Entrance>) {
    forall e :: e in entrances ==> Justified(journal, e.who, e.way)
  }

  lemma JournalGrows(journal: seq<Entry>, e: Entry, entrances: set<Entrance>)
    requires AllJustified(journal, entrances)
    ensures AllJustified(journal + [e], entrances)
    ensures forall s, h :: e != Cleared(s, h) && Outstanding(journal, s, h) ==> Outstanding(journal + [e], s, h)
    ensures e.Reserved? ==> Outstanding(journal + [e], e.who, e.host)
  {
    var longer := journal + [e];
    assert longer[..|journal|] == journal;
    forall x | x in entrances
      ensures Justified(longer, x.who, x.way)
    {
      assert Justified(journal, x.who, x.way);
      if x.way.Reply? {
        assert longer[..x.way.known] == journal[..x.way.known];
      }
    }
  }

  /** What a run of the server is made of. */
  datatype Request =
    | Heartbeat(addr: Addr, sessionID: U32, payload: map<string, string>, now: int, ratingOK: bool)
    | Close(key: nat)
    | LogIn(profileID: U32, inGameName: string, friendKeyGame: string, publicIP: string, deviceAuthenticated: bool, restricted: bool, openHost: bool)
    | LogOut(profileID: U32)
    | Expire(now: int)
    | GPResvOK(matchVersion: int, localPlayerCount: U32, resvOK: ResvOK, senderKey: nat, senderPid: U32, destKey: nat, destPid: U32,
               senderOK: bool, destOK: bool, name: string)
    | GPStatus(profileID: U32, senderKey: nat, status: string, ratingOK: bool)
    | ServerCheck(name: string)
    | ClientMessage(senderKey: nat, receiverKey: nat, isNatneg: bool, cmd: U8, matchData: MatchCommandData, name: string)
    | Packet(key: nat, sessionID: U32, challengeMet: bool, keepAlive: bool, now: int)
    | ProfileClaim(key: nat, newPID: string, gpcmIP: string, ratingOK: bool, unknown: bool)
    | DeviceAuth(profileID: U32)
    | OpenHost(profileID: U32, openHost: bool)
    | GPTellAddr(senderPid: U32, senderKey: nat, destPid: U32, destKey: nat, senderOK: bool, destOK: bool)
    | GPReservation(senderKey: nat, senderPid: U32, destPid: U32, joinType: U8, ratingOK: bool)

  datatype PidOutcome = Refused | Already | Claims(profile: nat)

  class Tables {
    var sessions: map<nat, Session>
    var bySearchID: map<nat, Session>
    var logins: map<nat, LoginInfo>
    var groups: map<string, Group>
    ghost var journal: seq<Entry>
    ghost var entrances: set<Entrance>

    constructor ()
      ensures Valid() && sessions == map[] && bySearchID == map[] && logins == map[] && groups == map[] && journal == [] && entrances == {}
    {
      sessions, bySearchID, logins, groups := map[], map[], map[], map[];
      journal, entrances := [], {};
    }

    // ---------- The invariant

    predicate Live(s: Session)
      reads this`sessions
    {
      LookupKey(s.addr) in sessions && sessions[LookupKey(s.addr)] == s
    }

    /** The address table and the search-ID table hold the same sessions, one to one. */
    ghost predicate Indexed()
      reads this`sessions, this`bySearchID, sessions.Values`searchID, bySearchID.Values`searchID
    {
      && (forall k :: k in sessions ==> LookupKey(sessions[k].addr) == k)
      && (forall k :: k in sessions ==> sessions[k].searchID in bySearchID && bySearchID[sessions[k].searchID] == sessions[k])
      && (forall i :: i in bySearchID ==> i != 0 && bySearchID[i].searchID == i && Live(bySearchID[i]))
    }

    /** A session and the login of its profile point at each other. */
    ghost predicate LoginLinked(s: Session)
      reads this`logins, s, logins.Values`session
    {
      if s.login == null then s.Pid() == ""
      else
        && s.login.profileID in logins && logins[s.login.profileID] == s.login
        && s.login.session == s && s.Pid() == FormatNat(s.login.profileID)
    }

    /** `joining` is a session under construction, not in the tables yet. */
    ghost predicate LoginsOK(joining: Session?)
      reads this`sessions, this`logins, sessions.Values, logins.Values, if joining == null then {} else {joining}
    {
      && (forall p :: p in logins ==> logins[p].profileID == p)
      && (forall p :: p in logins && logins[p].session != null ==>
            (Live(logins[p].session) || logins[p].session == joining) && logins[p].session.login == logins[p])
      && (forall k :: k in sessions ==> LoginLinked(sessions[k]))
      && (joining != null ==> LoginLinked(joining))
    }

    ghost predicate GroupOK(g: Group)
      reads this`sessions, g, g.players
    {
      && g.players != {}
      && (forall s :: s in g.players ==> Live(s) && s.group == g)
      && (g.server != null ==> g.server in g.players)
    }

    ghost predicate GroupLinked(s: Session)
      reads this`groups, s, groups.Values
    {
      if s.group == null then s.groupName == ""
      else
        && s.groupName == s.group.groupName
        && s.groupName in groups && groups[s.groupName] == s.group
        && s in s.group.players
    }

    /** Listed groups are non-empty, and membership and group pointers agree. */
    ghost predicate GroupsOK()
      reads this`sessions, this`groups, sessions.Values, groups.Values, set g, s | g in groups.Values && s in g.players :: s
    {
      && (forall n :: n in groups ==> n != "" && groups[n].groupName == n && GroupOK(groups[n]))
      && (forall k :: k in sessions ==> GroupLinked(sessions[k]))
    }

    ghost predicate IndicesOK(g: Group)
      reads g, g.players
    {
      && g.DistinctIndices()
      && forall s :: s in g.players ==> s.JoinIndex().Some? && 0 <= s.JoinIndex().value <= g.lastJoinIndex
    }

    /** Join indices in a group are distinct and at most the last one handed out. */
    ghost predicate AllIndicesOK()
      reads this`groups, groups.Values, set g, s | g in groups.Values && s in g.players :: s
    {
      forall n :: n in groups ==> IndicesOK(groups[n])
    }

    ghost predicate ReservationOK(s: Session)
      reads this`journal, s`reservation, s`reservationID
    {
      && (s.reservation.reservation.None? ==> s.reservation.version == 0 && s.reservationID == 0)
      && (s.reservation.reservation.Some? ==> KnownVersion(s.reservation.version))
      && (s.reservationID != 0 ==> Outstanding(journal, s, s.reservationID))
    }

    /** A member of a group once came in, in a way that is on record. */
    ghost predicate Admitted(s: Session)
      reads this`entrances, s`group
    {
      s.group != null ==> exists e :: e in entrances && e.who == s && e.into == s.group
    }

    ghost predicate HistoryOK()
      reads this`journal, this`entrances, this`sessions, sessions.Values`reservation, sessions.Values`reservationID, sessions.Values`group
    {
      && AllJustified(journal, entrances)
      && forall k :: k in sessions ==> ReservationOK(sessions[k]) && Admitted(sessions[k])
    }

    ghost predicate ValidWith(joining: Session?)
      reads this, sessions.Values, bySearchID.Values, logins.Values, groups.Values
      reads set g, s | g in groups.Values && s in g.players :: s
      reads if joining == null then {} else {joining}
    {
      Indexed() && LoginsOK(joining) && GroupsOK() && AllIndicesOK() && HistoryOK()
    }

    ghost predicate Valid()
      reads this, sessions.Values, bySearchID.Values, logins.Values, groups.Values
      reads set g, s | g in groups.Values && s in g.players :: s
    {
      ValidWith(null)
    }

    /** Everything in the tables was in them before or is new. */
    twostate predicate Accounted()
      reads this`sessions, this`logins, this`groups
    {
      && (forall k :: k in sessions ==> fresh(sessions[k]) || (k in old(sessions) && sessions[k] == old(sessions)[k]))
      && (forall p :: p in logins ==> fresh(logins[p]) || (p in old(logins) && logins[p] == old(logins)[p]))
      && (forall n :: n in groups ==> fresh(groups[n]) || (n in old(groups) && groups[n] == old(groups)[n]))
    }

    /** Neither the tables nor anything in them changed. */
    twostate predicate Unmoved()
      reads *
    {
      unchanged(this) && unchanged(old(sessions.Values)) && unchanged(old(logins.Values)) && unchanged(old(groups.Values))
    }

    /** The tables only lost entries, and no session entered a group. */
    twostate predicate Shrunk()
      reads this`sessions, this`logins, this`groups, sessions.Values`group
    {
      && (forall k :: k in sessions ==> k in old(sessions) && sessions[k] == old(sessions)[k])
      && (forall k :: k in sessions ==> sessions[k].group == old(sessions[k].group) || sessions[k].group == null)
      && (forall p :: p in logins ==> p in old(logins) && logins[p] == old(logins)[p])
      && (forall n :: n in groups ==> n in old(groups) && groups[n] == old(groups)[n])
    }

    /** Sessions are in the groups they were in, or in none. */
    twostate predicate NoneEntered()
      reads this`sessions, sessions.Values`group
    {
      forall k :: k in sessions ==>
        sessions[k].group == null || (k in old(sessions) && sessions[k] == old(sessions)[k] && sessions[k].group == old(sessions[k].group))
    }

    twostate lemma NothingLost()
      requires sessions == old(sessions) && logins == old(logins) && groups == old(groups)
      requires forall k :: k in sessions ==> sessions[k].group == old(sessions[k].group)
      ensures Shrunk()
    {
    }

    twostate lemma NothingAdded()
      requires sessions == old(sessions) && logins == old(logins) && groups == old(groups)
      ensures Accounted()
    {
    }

    twostate lemma ShrunkAccounted()
      requires Shrunk()
      ensures Accounted() && NoneEntered()
    {
    }

    static ghost predicate SubMap<K, V>(a: map<K, V>, b: map<K, V>) {
      forall k :: k in a ==> k in b && a[k] == b[k]
    }

    // ---------- Leaving a group

    /** The caller may have given the leaving session its next join index already. */
    method RemoveFromGroup(session: Session)
      requires Indexed() && GroupsOK() && Live(session)
      requires session.group != null
      modifies this`groups, session`group, session`groupName
      modifies {session.group}`players, {session.group}`server, {session.group}`matchType
      ensures Indexed() && GroupsOK()
      ensures session.group == null
      ensures old(session.group).players == old(session.group.players) - {session}
      ensures old(session.group).lastJoinIndex == old(session.group.lastJoinIndex)
      ensures groups == if old(session.group.players) == {session} then old(groups) - {old(session.groupName)} else old(groups)
      ensures old(session.group.server) == session && old(session.group.players) != {session} ==>
                old(session.group).IsServerChoice(old(session.group).server)
      ensures old(session.group.server) != session ==> old(session.group).server == old(session.group.server)
    {
      hide GroupsOK, Indexed, GroupOK, GroupLinked;
      var g := session.group;
      InGroup(session);
      g.players := g.players - {session};
      if g.players == {} {
        groups := groups - {g.groupName};
      } else if g.server == session {
        g.server := null;
        g.FindNewServer();
      }
      session.group := null;
      session.groupName := "";
      LeftGroups(LookupKey(session.addr));
      IndexKept();
    }

    lemma InGroup(session: Session)
      requires GroupsOK() && Live(session) && session.group != null
      ensures session.groupName == session.group.groupName && session in session.group.players
      ensures session.groupName in groups && groups[session.groupName] == session.group
      ensures ServerIsMember(session.group)
    {
      assert GroupLinked(session) by { assert sessions[LookupKey(session.addr)] == session; }
      assert GroupOK(groups[session.groupName]);
    }

    /** The index tables do not depend on anything but the search IDs. */
    twostate lemma IndexKept()
      requires old(Indexed())
      requires sessions == old(sessions) && bySearchID == old(bySearchID)
      requires forall k :: k in sessions ==> sessions[k].searchID == old(sessions[k].searchID)
      ensures Indexed()
    {
    }

    predicate ServerIsMember(g: Group)
      reads g
    {
      g.server != null ==> g.server in g.players
    }

    /** Nothing but its group and its group fields changed when the session at this key left. */
    twostate predicate Leaves(key: nat)
      reads *
    {
      && key in old(sessions)
      && var session := old(sessions)[key];
      && var g := old(session.group);
      && g != null && g.players == old(g.players) - {session}
      && session.group == null && session.groupName == ""
      && sessions == old(sessions)
      && groups == (if g.players == {} then old(groups) - {g.groupName} else old(groups))
      && (g.players != {} ==> ServerIsMember(g))
      && (forall k :: k in old(sessions) && old(sessions)[k] != session ==> old(sessions)[k].group == old(sessions[k].group))
      && (forall k :: k in old(sessions) && old(sessions)[k] != session ==> old(sessions)[k].groupName == old(sessions[k].groupName))
      && (forall n :: n in old(groups) && old(groups)[n] != g ==> old(groups)[n].players == old(groups[n].players))
      && (forall n :: n in old(groups) && old(groups)[n] != g ==> old(groups)[n].server == old(groups[n].server))
    }

    twostate lemma LeftGroups(key: nat)
      requires old(GroupsOK())
      requires Leaves(key) && LookupKey(sessions[key].addr) == key
      ensures GroupsOK()
    {
      hide GroupOK, GroupLinked;
      assert old(GroupLinked(sessions[key]));
      forall n | n in groups
        ensures n != "" && groups[n].groupName == n && GroupOK(groups[n])
      {
        LeftGroup(key, n);
      }
      forall k | k in sessions
        ensures GroupLinked(sessions[k])
      {
        LeftSession(key, k);
      }
    }

    /** What every remaining group keeps when the session at key leaves. */
    twostate lemma LeftGroup(key: nat, new n: string)
      requires Leaves(key) && old(GroupLinked(sessions[key])) && LookupKey(sessions[key].addr) == key
      requires n in groups && n in old(groups) && old(groups[n].groupName) == n && old(GroupOK(groups[n]))
      ensures GroupOK(groups[n])
    {
    }

    twostate lemma LeftSession(key: nat, new k: nat)
      requires Leaves(key) && old(GroupLinked(sessions[key])) && LookupKey(sessions[key].addr) == key
      requires k in old(sessions) && old(GroupLinked(sessions[k]))
      ensures GroupLinked(sessions[k])
    {
      var s, g := sessions[k], old(sessions[key].group);
      if s != sessions[key] && s.group == g {
        assert s in g.players;
      }
    }

    // ---------- What a step that leaves a part of the state alone keeps

    /** Login links depend on the login and session pointers and the profile ID field only. */
    twostate lemma LoginsKept(joining: Session?)
      requires old(LoginsOK(joining)) && logins == old(logins) && sessions == old(sessions)
      requires forall k :: k in sessions ==> sessions[k].login == old(sessions[k].login)
      requires forall k :: k in sessions ==> sessions[k].Pid() == old(sessions[k].Pid())
      requires forall p :: p in logins ==> logins[p].session == old(logins[p].session)
      requires joining != null ==> unchanged(joining)
      ensures LoginsOK(joining)
    {
      forall k | k in sessions
        ensures LoginLinked(sessions[k])
      {
        assert old(LoginLinked(sessions[k]));
      }
    }

    twostate lemma GroupsKept()
      requires old(GroupsOK()) && groups == old(groups) && sessions == old(sessions)
      requires forall k :: k in sessions ==> sessions[k].group == old(sessions[k].group)
      requires forall k :: k in sessions ==> sessions[k].groupName == old(sessions[k].groupName)
      requires forall n :: n in groups ==> groups[n].players == old(groups[n].players)
      requires forall n :: n in groups ==> groups[n].server == old(groups[n].server) || ServerIsMember(groups[n])
      ensures GroupsOK()
    {
      forall n | n in groups
        ensures GroupOK(groups[n])
      {
        assert old(GroupOK(groups[n]));
      }
      forall k | k in sessions
        ensures GroupLinked(sessions[k])
      {
        assert old(GroupLinked(sessions[k]));
      }
    }

    /** Groups may lose members, and only non-members may change their join index. */
    twostate lemma IndicesKept()
      requires old(AllIndicesOK()) && groups.Keys <= old(groups).Keys
      requires forall n :: n in groups ==> groups[n] == old(groups)[n]
      requires forall n :: n in groups ==> groups[n].players <= old(groups[n].players)
      requires forall n :: n in groups ==> groups[n].lastJoinIndex == old(groups[n].lastJoinIndex)
      requires forall n, s :: n in groups && s in groups[n].players ==> s.JoinIndex() == old(s.JoinIndex())
      ensures AllIndicesOK()
    {
      forall n | n in groups
        ensures IndicesOK(groups[n])
      {
        assert old(IndicesOK(groups[n]));
      }
    }

    /** Sessions may leave their groups. */
    twostate lemma HistoryKept()
      requires old(HistoryOK()) && journal == old(journal) && entrances == old(entrances) && sessions.Keys <= old(sessions).Keys
      requires forall k :: k in sessions ==> sessions[k] == old(sessions)[k]
      requires forall k :: k in sessions ==> sessions[k].reservation == old(sessions[k].reservation)
      requires forall k :: k in sessions ==> sessions[k].reservationID == old(sessions[k].reservationID)
      requires forall k :: k in sessions ==> sessions[k].group == old(sessions[k].group) || sessions[k].group == null
      ensures HistoryOK()
    {
      hide Outstanding, AllJustified;
      forall k | k in sessions
        ensures ReservationOK(sessions[k]) && Admitted(sessions[k])
      {
        assert old(ReservationOK(sessions[k]) && Admitted(sessions[k]));
      }
    }

    /** Exactly one session came into a group, and that is on record. */
    twostate lemma EntranceKept(new e: Entrance)
      requires old(HistoryOK()) && journal == old(journal) && entrances == old(entrances) + {e} && sessions == old(sessions)
      requires Justified(journal, e.who, e.way) && e.who.group == e.into
      requires forall k :: k in sessions ==> sessions[k].reservation == old(sessions[k].reservation)
      requires forall k :: k in sessions ==> sessions[k].reservationID == old(sessions[k].reservationID)
      requires forall k :: k in sessions && sessions[k] != e.who ==> sessions[k].group == old(sessions[k].group)
      ensures HistoryOK()
    {
      hide Outstanding, Justified;
      forall k | k in sessions
        ensures ReservationOK(sessions[k]) && Admitted(sessions[k])
      {
        assert old(ReservationOK(sessions[k]) && Admitted(sessions[k]));
        EntranceAdmits(e, k);
      }
    }

    twostate lemma EntranceAdmits(new e: Entrance, new k: nat)
      requires entrances == old(entrances) + {e} && sessions == old(sessions) && k in sessions
      requires old(Admitted(sessions[k])) && e.who.group == e.into
      requires sessions[k] != e.who ==> sessions[k].group == old(sessions[k].group)
      ensures Admitted(sessions[k])
    {
      if sessions[k] == e.who {
        assert e in entrances;
      } else if sessions[k].group != null {
        var x :| x in old(entrances) && x.who == sessions[k] && x.into == old(sessions[k].group);
        assert x in entrances;
      }
    }

    // ---------- Removing a session

    /** The group of a session, and its login, as sets of at most one. */
    function GroupOf(s: Session): set<Group>
      reads s`group
    {
      if s.group != null then {s.group} else {}
    }

    function LoginOf(s: Session): set<LoginInfo>
      reads s`login
    {
      if s.login != null then {s.login} else {}
    }

    function SessionAt(key: nat): set<Session>
      reads this`sessions
    {
      if key in sessions then {sessions[key]} else {}
    }

    function Holder(login: LoginInfo): set<Session>
      reads login`session
    {
      if login.session != null then {login.session} else {}
    }

    function HolderOfProfile(p: nat): set<Session>
      reads this`logins, if p in logins then {logins[p]} else {}
    {
      if p in logins then Holder(logins[p]) else {}
    }

    function LoginsOf(ss: set<Session>): set<LoginInfo>
      reads ss`login
    {
      set s | s in ss && s.login != null :: s.login
    }

    function GroupsOf(ss: set<Session>): set<Group>
      reads ss`group
    {
      set s | s in ss && s.group != null :: s.group
    }

    function Touched(s: Session): set<object>
      reads s
    {
      {s} + (if s.login != null then {s.login} else {}) + (if s.group != null then {s.group} else {})
    }

    ghost predicate Outside(joining: Session?)
      reads this, if joining == null then {} else {joining}
    {
      joining != null ==> !Live(joining) && joining.group == null
    }

    method LeaveGroup(session: Session, ghost joining: Session?)
      requires ValidWith(joining) && Outside(joining) && Live(session)
      modifies this`groups, session`group, session`groupName
      modifies GroupOf(session)`players, GroupOf(session)`server, GroupOf(session)`matchType
      ensures ValidWith(joining) && session.group == null
      ensures groups.Keys <= old(groups).Keys
      ensures forall n :: n in groups ==> groups[n] == old(groups)[n] && groups[n].players == old(groups[n].players) - {session}
    {
      hide Indexed, LoginsOK, GroupsOK, AllIndicesOK, HistoryOK, Live, GroupOK;
      if session.group == null {
        NotListed(session);
        return;
      }
      InGroup(session);
      MembersSpread(session);
      RemoveFromGroup(session);
      LoginsKept(joining);
      IndicesKept();
      HistoryKept();
    }

    lemma NotListed(session: Session)
      requires GroupsOK() && session.group == null
      ensures forall n :: n in groups ==> session !in groups[n].players
    {
      forall n | n in groups
        ensures session !in groups[n].players
      {
        assert GroupOK(groups[n]);
      }
    }

    /** A session is a member of its own group only. */
    lemma MembersSpread(session: Session)
      requires GroupsOK()
      ensures forall n :: n in groups && groups[n] != session.group ==> session !in groups[n].players
      ensures forall n :: n in groups ==> groups[n].groupName == n
    {
      forall n | n in groups && groups[n] != session.group
        ensures session !in groups[n].players
      {
        assert GroupOK(groups[n]);
      }
    }

    /** Exactly the session at key, which was in no group, went away. */
    twostate predicate Gone(key: nat)
      reads *
    {
      && key in old(sessions)
      && var session := old(sessions)[key];
      && old(session.group) == null && session.login == null
      && sessions == old(sessions) - {key} && bySearchID == old(bySearchID) - {session.searchID}
      && logins == old(logins) && groups == old(groups) && journal == old(journal) && entrances == old(entrances)
      && (forall k :: k in old(sessions) && k != key ==> unchanged(old(sessions)[k]))
      && (forall n :: n in groups ==> unchanged(groups[n]))
      && (forall p :: p in logins ==> logins[p].session == if logins[p] == old(session.login) then null else old(logins[p].session))
      && session.searchID == old(session.searchID)
    }

    twostate lemma GoneIndexed(key: nat)
      requires old(Indexed()) && Gone(key)
      ensures Indexed()
    {
    }

    twostate lemma GoneLogins(key: nat, new joining: Session?)
      requires old(Indexed()) && Gone(key)
      requires joining != null ==> old(allocated(joining)) && unchanged(joining) && old(!Live(joining))
      requires old(LoginsOK(joining))
      ensures LoginsOK(joining)
    {
      var session := old(sessions[key]);
      assert old(LoginLinked(session));
      forall p | p in logins && logins[p].session != null
        ensures (Live(logins[p].session) || logins[p].session == joining) && logins[p].session.login == logins[p]
      {
        assert logins[p].session == old(logins[p].session);
        assert logins[p].session != session;
      }
      forall k | k in sessions
        ensures LoginLinked(sessions[k])
      {
        assert old(LoginLinked(sessions[k]));
      }
      if joining != null {
        assert old(LoginLinked(joining));
      }
    }

    twostate lemma GoneGroups(key: nat)
      requires old(Indexed()) && old(GroupsOK()) && Gone(key)
      ensures GroupsOK()
    {
      forall n | n in groups
        ensures GroupOK(groups[n])
      {
        assert old(GroupOK(groups[n]));
        forall s | s in groups[n].players
          ensures Live(s) && s.group == groups[n]
        {
          assert s != old(sessions[key]);
        }
      }
      forall k | k in sessions
        ensures GroupLinked(sessions[k])
      {
        assert old(GroupLinked(sessions[k]));
      }
    }

    twostate lemma GoneRest(key: nat)
      requires old(Indexed()) && old(GroupsOK()) && old(AllIndicesOK()) && old(HistoryOK()) && Gone(key)
      ensures AllIndicesOK() && HistoryOK()
    {
      hide Indexed, AllIndicesOK, HistoryOK, GroupLinked;
      forall n, s | n in groups && s in groups[n].players
        ensures s.JoinIndex() == old(s.JoinIndex())
      {
        assert old(GroupOK(groups[n]));
        assert s == old(sessions[LookupKey(s.addr)]);
      }
      IndicesKept();
      HistoryKept();
    }

    /** The last part of removeSession. */
    method Unlink(session: Session, ghost joining: Session?)
      requires ValidWith(joining) && Outside(joining)
      requires Live(session) && session.group == null
      modifies this`sessions, this`bySearchID, session`login, LoginOf(session)`session
      ensures ValidWith(joining)
      ensures sessions == old(sessions) - {LookupKey(session.addr)} && bySearchID == old(bySearchID) - {session.searchID}
      ensures session.login == null
      ensures old(session.login) != null ==> old(session.login).session == null
    {
      hide LoginsOK, GroupsOK, AllIndicesOK, HistoryOK, LoginLinked;
      ghost var key := LookupKey(session.addr);
      LinkOf(session, joining);
      if session.login != null {
        session.login.session := null;
        session.login := null;
      }
      bySearchID := bySearchID - {session.searchID};
      sessions := sessions - {LookupKey(session.addr)};
      GoneIndexed(key);
      GoneLogins(key, joining);
      GoneGroups(key);
      GoneRest(key);
    }

    lemma LinkOf(session: Session, joining: Session?)
      requires LoginsOK(joining) && Live(session)
      ensures LoginLinked(session)
    {
      assert sessions[LookupKey(session.addr)] == session;
    }

    /** `joining` is the session whose login displaces this one, when it is not in the tables yet. */
    method RemoveSession(key: nat, ghost joining: Session?)
      requires ValidWith(joining) && Outside(joining)
      modifies this`sessions, this`bySearchID, this`groups
      modifies SessionAt(key)`login, SessionAt(key)`group, SessionAt(key)`groupName
      modifies LoginsOf(SessionAt(key))`session
      modifies GroupsOf(SessionAt(key))`players, GroupsOf(SessionAt(key))`server, GroupsOf(SessionAt(key))`matchType
      ensures ValidWith(joining)
      ensures sessions == old(sessions) - {key} && Shrunk()
      ensures bySearchID == if key in old(sessions) then old(bySearchID) - {old(sessions[key].searchID)} else old(bySearchID)
      ensures key !in old(sessions) ==> groups == old(groups)
      ensures key in old(sessions) ==> old(sessions[key]).data == old(sessions[key].data)
      ensures key in old(sessions) ==>
                && old(sessions[key]).login == null && old(sessions[key]).group == null
                && (old(sessions[key].login) != null ==> old(sessions[key].login).session == null)
                && groups.Keys <= old(groups).Keys
                && forall n :: n in groups ==> groups[n] == old(groups)[n] && groups[n].players == old(groups[n].players) - {old(sessions[key])}
    {
      hide Indexed, LoginsOK, GroupsOK, AllIndicesOK, HistoryOK;
      if key !in sessions {
        return;
      }
      var session := sessions[key];
      KeyOf(key);
      LeaveGroup(session, joining);
      Unlink(session, joining);
    }

    lemma KeyOf(key: nat)
      requires Indexed() && key in sessions
      ensures Live(sessions[key]) && LookupKey(sessions[key].addr) == key
    {
    }

    // ---------- Tying a session to a profile

    /** The fields only the server writes. */
    predicate ServerField(k: string) {
      k != "" && k[0] == '+'
    }

    /** The fields a heartbeat cannot overwrite. */
    predicate Protected(k: string) {
      ServerField(k) || k == "dwc_pid"
    }

    /** The fields a heartbeat sets. */
    function ClientFields(data: map<string, string>): map<string, string> {
      map k | k in data && !Protected(k) :: data[k]
    }

    lemma ProtectedWrite(data: map<string, string>, k: string, v: string)
      requires Protected(k)
      ensures ClientFields(data[k := v]) == ClientFields(data) && ClientFields(data - {"dwc_pid"}) == ClientFields(data)
    {
    }

    /** The profile ID a client names, when it is a canonical 32-bit decimal. */
    static function ProfileOf(pid: string): Option<nat> {
      var n := ParseInt(pid);
      if n.None? || !(0 <= n.value < 0x1_0000_0000) || FormatNat(n.value) != pid then None else Some(n.value)
    }

    /** Every session that is still listed, other than this one, is as it was. */
    twostate predicate OthersKept(session: Session)
      reads this`sessions, this`groups, sessions.Values - {session}, groups.Values`players
    {
      && sessions.Keys <= old(sessions).Keys
      && (forall k :: k in sessions ==> sessions[k] == old(sessions)[k])
      && (forall k :: k in sessions && sessions[k] != session ==> unchanged(sessions[k]))
      && groups.Keys <= old(groups).Keys
      && (forall n :: n in groups ==> groups[n] == old(groups)[n] && groups[n].players <= old(groups[n].players))
    }

    /** Only the profile's login, its session pointer and the session's login and data changed. */
    twostate predicate Attached(session: Session)
      reads *
    {
      && session.login != null && session.login.profileID in logins && logins[session.login.profileID] == session.login
      && old(session.login) == null && logins == old(logins)
      && (var p := session.login.profileID; old(logins[p].session) == null)
      && session.login.session == session && session.Pid() == FormatNat(session.login.profileID)
      && sessions == old(sessions) && bySearchID == old(bySearchID) && groups == old(groups)
      && journal == old(journal)
      && (forall k :: k in sessions && sessions[k] != session ==> unchanged(sessions[k]))
      && (forall p :: p in logins && logins[p] != session.login ==> unchanged(logins[p]))
      && (forall n :: n in groups ==> unchanged(groups[n]))
      && session.group == old(session.group) && session.groupName == old(session.groupName)
      && session.JoinIndex() == old(session.JoinIndex()) && session.searchID == old(session.searchID)
      && session.reservation == old(session.reservation) && session.reservationID == old(session.reservationID)
    }

    twostate lemma AttachedLogins(session: Session, new joining: Session?)
      requires joining == null || joining == session
      requires Attached(session) && (joining == null ==> Live(session))
      requires old(LoginsOK(joining))
      ensures LoginsOK(joining)
    {
      forall k | k in sessions
        ensures LoginLinked(sessions[k])
      {
        assert old(LoginLinked(sessions[k]));
      }
      forall p | p in logins && logins[p].session != null
        ensures (Live(logins[p].session) || logins[p].session == joining) && logins[p].session.login == logins[p]
      {
        if logins[p] != session.login {
          assert logins[p].session == old(logins[p].session);
        }
      }
    }

    twostate lemma AttachedIndices(session: Session)
      requires old(AllIndicesOK()) && old(GroupsOK()) && Attached(session)
      ensures AllIndicesOK()
    {
      hide GroupLinked;
      forall n, s | n in groups && s in groups[n].players
        ensures s.JoinIndex() == old(s.JoinIndex())
      {
        assert old(GroupOK(groups[n]));
        assert s == old(sessions[LookupKey(s.addr)]);
      }
      IndicesKept();
    }

    /** The data after setProfileID accepted a new profile ID. */
    function LoginFields(data: map<string, string>, deviceAuthenticated: bool, ip: string, gameID: string, pid: string): (d: map<string, string>)
      ensures ClientFields(d) == ClientFields(data)
      ensures Get(d, "dwc_pid") == pid && Get(d, "+joinindex") == Get(data, "+joinindex")
    {
      var auth := if deviceAuthenticated then "1" else "0";
      ProtectedWrite(data, "+deviceauth", auth);
      var d1 := data["+deviceauth" := auth];
      ProtectedWrite(d1, "+gppublicip", ip);
      var d2 := d1["+gppublicip" := ip];
      ProtectedWrite(d2, "+fcgameid", gameID);
      var d3 := d2["+fcgameid" := gameID];
      ProtectedWrite(d3, "dwc_pid", pid);
      d3["dwc_pid" := pid]
    }

    method Attach(session: Session, loginInfo: LoginInfo, newPID: string, ghost joining: Session?)
      requires joining == null || joining == session
      requires ValidWith(joining) && Outside(joining) && (joining == null ==> Live(session))
      requires session.login == null && loginInfo.profileID in logins && logins[loginInfo.profileID] == loginInfo
      requires loginInfo.session == null && newPID == FormatNat(loginInfo.profileID)
      modifies session`login, session`data, loginInfo`session
      ensures ValidWith(joining)
      ensures session.login == loginInfo && loginInfo.session == session && session.Pid() == newPID
      ensures session.data == LoginFields(old(session.data), session.login.deviceAuthenticated, session.login.gpPublicIP, session.login.friendKeyGame, newPID)
      ensures ClientFields(session.data) == old(ClientFields(session.data))
    {
      hide Indexed, LoginsOK, GroupsOK, AllIndicesOK, HistoryOK, LoginLinked, ClientFields, LoginFields;
      session.login := loginInfo;
      loginInfo.session := session;
      session.data := LoginFields(session.data, loginInfo.deviceAuthenticated, loginInfo.gpPublicIP, loginInfo.friendKeyGame, newPID);
      AttachedLogins(session, joining);
      AttachedIndices(session);
      IndexKept();
      GroupsKept();
      HistoryKept();
    }

    /** Makes room for a new session of this profile by removing the one that holds it. */
    method Displace(loginInfo: LoginInfo, session: Session, ghost joining: Session?)
      requires joining == null || joining == session
      requires ValidWith(joining) && Outside(joining) && (joining == null ==> Live(session))
      requires session.login == null
      requires loginInfo.profileID in logins && logins[loginInfo.profileID] == loginInfo
      modifies this`sessions, this`bySearchID, this`groups
      modifies Holder(loginInfo)`login, Holder(loginInfo)`group, Holder(loginInfo)`groupName
      modifies LoginsOf(Holder(loginInfo))`session
      modifies GroupsOf(Holder(loginInfo))`players, GroupsOf(Holder(loginInfo))`server, GroupsOf(Holder(loginInfo))`matchType
      ensures ValidWith(joining) && Outside(joining) && (joining == null ==> Live(session))
      ensures loginInfo.session == null && session.login == null && OthersKept(session) && Shrunk()
      ensures forall k :: k in old(sessions) && old(sessions)[k] != session ==> old(sessions)[k].data == old(sessions[k].data)
      ensures forall k :: k in old(sessions) && old(sessions)[k] != session ==> old(sessions)[k].group == old(sessions[k].group) || old(sessions)[k].group == null
      ensures forall k :: k in old(sessions) && k !in sessions ==> old(sessions)[k].login == null
      ensures unchanged(session) && bySearchID.Keys <= old(bySearchID.Keys)
      ensures sessions == old(sessions) || (old(loginInfo.session) != null && sessions == old(sessions) - {LookupKey(old(loginInfo.session).addr)})
    {
      hide ValidWith, ClientFields, LoginFields, Shrunk, FormatNat, LookupKey, Touched, LoginsOf;
      if loginInfo.session != null {
        HolderKnown(loginInfo, joining);
        RemoveSession(LookupKey(loginInfo.session.addr), joining);
      } else {
        NothingLost();
      }
    }

    lemma HolderKnown(loginInfo: LoginInfo, joining: Session?)
      requires ValidWith(joining) && loginInfo.session != null
      requires loginInfo.profileID in logins && logins[loginInfo.profileID] == loginInfo
      ensures loginInfo.session.login == loginInfo && (Live(loginInfo.session) || loginInfo.session == joining)
      ensures forall k :: k in sessions ==> LookupKey(sessions[k].addr) == k
    {
    }

    lemma KeysAgree()
      requires Indexed()
      ensures forall k :: k in sessions ==> LookupKey(sessions[k].addr) == k
    {
    }

    lemma TouchedListed(session: Session, joining: Session?)
      requires LoginsOK(joining) && GroupsOK() && Live(session)
      ensures forall o :: o in Touched(session) ==> o in sessions.Values || o in logins.Values || o in groups.Values
    {
      assert sessions[LookupKey(session.addr)] == session;
      assert LoginLinked(session) && GroupLinked(session);
    }

    lemma HolderListed(loginInfo: LoginInfo, joining: Session?, session: Session)
      requires joining == null || joining == session
      requires ValidWith(joining) && session.login == null
      requires loginInfo.profileID in logins && logins[loginInfo.profileID] == loginInfo
      ensures loginInfo.session != null ==>
                forall o :: o in Touched(loginInfo.session) ==> o in sessions.Values || o in logins.Values || o in groups.Values
    {
      if loginInfo.session != null {
        HolderOf(loginInfo, joining);
        TouchedListed(loginInfo.session, joining);
      }
    }

    lemma HolderPid(loginInfo: LoginInfo, joining: Session?, session: Session)
      requires joining == null || joining == session
      requires ValidWith(joining) && session.login == null
      requires loginInfo.profileID in logins && logins[loginInfo.profileID] == loginInfo
      ensures loginInfo.session != null ==> Live(loginInfo.session) && loginInfo.session.Pid() == FormatNat(loginInfo.profileID)
    {
      hide Indexed, GroupsOK, AllIndicesOK, HistoryOK, FormatNat;
      if loginInfo.session != null {
        HolderOf(loginInfo, joining);
        LinkOf(loginInfo.session, joining);
      }
    }

    /** The session a login points at is listed, unless it is the one under construction. */
    lemma HolderOf(loginInfo: LoginInfo, joining: Session?)
      requires LoginsOK(joining) && loginInfo.session != null
      requires loginInfo.profileID in logins && logins[loginInfo.profileID] == loginInfo
      ensures loginInfo.session.login == loginInfo
      ensures Live(loginInfo.session) || loginInfo.session == joining
    {
    }

    /** What setProfileID makes of a new profile ID: it is this session's already, or names a profile that is logged in. */
    function PidVerdict(current: string, newPID: string, gpcmIP: string, ratingOK: bool): PidOutcome
      reads this`logins
    {
      if current != "" then (if newPID == current then Already else Refused)
      else
        var p := ProfileOf(newPID);
        if p.None? || p.value !in logins then Refused
        else if (gpcmIP != "" && gpcmIP != logins[p.value].gpPublicIP) || !ratingOK then Refused
        else Claims(p.value)
    }

    /** A session keeps the profile it has; one without takes any that is logged in, from its address, with a valid rating. */
    lemma VerdictMeans(current: string, newPID: string, gpcmIP: string, ratingOK: bool)
      ensures PidVerdict(current, newPID, gpcmIP, ratingOK) == Already <==> current != "" && newPID == current
      ensures forall p :: PidVerdict(current, newPID, gpcmIP, ratingOK) == Claims(p) <==>
                && current == "" && p in logins && p < 0x1_0000_0000 && newPID == FormatNat(p)
                && (gpcmIP == "" || logins[p].gpPublicIP == gpcmIP) && ratingOK
    {
      forall p: nat | p < 0x1_0000_0000 && newPID == FormatNat(p)
        ensures ProfileOf(newPID) == Some(p)
      {
        ParseOfFormat(p);
      }
    }

    function PidCheck(session: Session, newPID: string, gpcmIP: string, ratingOK: bool): PidOutcome
      reads this`logins, session`data
    {
      PidVerdict(session.Pid(), newPID, gpcmIP, ratingOK)
    }

    method Claim(session: Session, loginInfo: LoginInfo, newPID: string, ghost joining: Session?)
      requires joining == null || joining == session
      requires ValidWith(joining) && Outside(joining) && (joining == null ==> Live(session))
      requires session.login == null && newPID == FormatNat(loginInfo.profileID)
      requires loginInfo.profileID in logins && logins[loginInfo.profileID] == loginInfo
      modifies this`sessions, this`bySearchID, this`groups
      modifies sessions.Values, logins.Values, groups.Values, session
      ensures ValidWith(joining) && Outside(joining) && (joining == null ==> Live(session))
      ensures Shrunk() && OthersKept(session) && session.group == old(session.group) && session.groupName == old(session.groupName)
      ensures forall k :: k in old(sessions) && old(sessions)[k] != session ==> old(sessions)[k].data == old(sessions[k].data)
      ensures forall k :: k in old(sessions) && old(sessions)[k] != session ==> old(sessions)[k].group == old(sessions[k].group) || old(sessions)[k].group == null
      ensures forall k :: k in old(sessions) && k !in sessions ==> old(sessions)[k].login == null
      ensures session.sessionID == old(session.sessionID)
      ensures session.reservation == old(session.reservation) && session.reservationID == old(session.reservationID)
      ensures session.login == loginInfo && session.Pid() == newPID
      ensures session.data == LoginFields(old(session.data), session.login.deviceAuthenticated, session.login.gpPublicIP, session.login.friendKeyGame, newPID)
      ensures ClientFields(session.data) == old(ClientFields(session.data)) && bySearchID.Keys <= old(bySearchID.Keys)
      ensures sessions == old(sessions) || (old(loginInfo.session) != null && sessions == old(sessions) - {LookupKey(old(loginInfo.session).addr)})
      ensures loginInfo.session == session && logins == old(logins)
      ensures forall k :: k in old(sessions) && k !in sessions ==> old(sessions[k].Pid()) == newPID
    {
      hide ValidWith, ClientFields, LoginFields, FormatNat, LookupKey, Shrunk, OthersKept;
      HolderListed(loginInfo, joining, session);
      HolderPid(loginInfo, joining, session);
      Displace(loginInfo, session, joining);
      Attach(session, loginInfo, newPID, joining);
    }

    /** ratingOK stands for the outcome of checkValidRating on the session's data. */
    method SetProfileID(session: Session, newPID: string, gpcmIP: string, ratingOK: bool, ghost joining: Session?) returns (ok: bool)
      requires joining == null || joining == session
      requires ValidWith(joining) && Outside(joining) && (joining == null ==> Live(session))
      modifies this`sessions, this`bySearchID, this`groups
      modifies sessions.Values, logins.Values, groups.Values, session
      ensures ValidWith(joining) && Outside(joining) && (joining == null ==> Live(session))
      ensures Shrunk() && OthersKept(session) && session.group == old(session.group) && session.groupName == old(session.groupName)
      ensures forall k :: k in old(sessions) && old(sessions)[k] != session ==> old(sessions)[k].data == old(sessions[k].data)
      ensures forall k :: k in old(sessions) && old(sessions)[k] != session ==> old(sessions)[k].group == old(sessions[k].group) || old(sessions)[k].group == null
      ensures forall k :: k in old(sessions) && k !in sessions ==> old(sessions)[k].login == null
      ensures session.sessionID == old(session.sessionID)
      ensures session.reservation == old(session.reservation) && session.reservationID == old(session.reservationID)
      ensures ok <==> old(PidCheck(session, newPID, gpcmIP, ratingOK)) != Refused
      ensures ClientFields(session.data) == old(ClientFields(session.data)) && bySearchID.Keys <= old(bySearchID.Keys)
      ensures ok ==> session.login != null && session.Pid() == newPID && ProfileOf(newPID) == Some(session.login.profileID)
      ensures logins == old(logins) && (ok ==> session.login.session == session && session.login in logins.Values)
      ensures forall k :: k in old(sessions) && k !in sessions ==> old(sessions[k].Pid()) == newPID
      ensures old(PidCheck(session, newPID, gpcmIP, ratingOK)).Claims? ==>
                && session.login != null
                && session.data == LoginFields(old(session.data), session.login.deviceAuthenticated, session.login.gpPublicIP, session.login.friendKeyGame, newPID)
      ensures !old(PidCheck(session, newPID, gpcmIP, ratingOK)).Claims? ==>
                Unmoved() && unchanged(session)
      ensures sessions != old(sessions) ==>
                && old(PidCheck(session, newPID, gpcmIP, ratingOK)).Claims?
                && var p := old(PidCheck(session, newPID, gpcmIP, ratingOK)).profile;
                   && p in old(logins) && old(logins[p].session) != null
                   && sessions == old(sessions) - {LookupKey(old(logins[p].session).addr)}
    {
      hide Indexed, LoginsOK, GroupsOK, AllIndicesOK, HistoryOK, LoginLinked, ClientFields, LoginFields;
      LinkOfAny(session, joining);
      match PidCheck(session, newPID, gpcmIP, ratingOK)
      case Refused => return false;
      case Already => return true;
      case Claims(profile) =>
        Claim(session, logins[profile], newPID, joining);
        return true;
    }

    lemma LinkOfAny(session: Session, joining: Session?)
      requires LoginsOK(joining) && (Live(session) || session == joining)
      ensures session.login == null <==> session.Pid() == ""
      ensures session.login != null ==> ProfileOf(session.Pid()) == Some(session.login.profileID)
      ensures session.login != null ==> session.login.session == session && session.login in logins.Values
      ensures forall p :: p in logins ==> logins[p].profileID == p
    {
      assert LoginLinked(session) by {
        if Live(session) {
          assert sessions[LookupKey(session.addr)] == session;
        }
      }
      if session.login != null {
        ParseOfFormat(session.login.profileID);
      }
    }

    /** The server fields are the login's and the profile ID is the new one; no other field is touched. */
    lemma LoginFieldsAre(data: map<string, string>, deviceAuthenticated: bool, ip: string, gameID: string, pid: string)
      ensures var d := LoginFields(data, deviceAuthenticated, ip, gameID, pid);
              && Get(d, "+deviceauth") == (if deviceAuthenticated then "1" else "0")
              && Get(d, "+gppublicip") == ip && Get(d, "+fcgameid") == gameID && Get(d, "dwc_pid") == pid
              && (forall k :: k !in {"+deviceauth", "+gppublicip", "+fcgameid", "dwc_pid"} ==>
                    (k in d <==> k in data) && (k in d ==> d[k] == data[k]))
    {
      assert "+deviceauth"[1] != "+gppublicip"[1] && "+deviceauth"[1] != "+fcgameid"[1] && "+gppublicip"[1] != "+fcgameid"[1];
    }

    // ---------- Heartbeats

    /** The new data of a session: the payload, with the protected fields of the old data put back. */
    method MergePayload(data: map<string, string>, payload: map<string, string>) returns (merged: map<string, string>)
      ensures forall k :: k in merged <==> k in payload || (k in data && Protected(k))
      ensures forall k :: k in merged ==> merged[k] == if k in data && Protected(k) then data[k] else payload[k]
      ensures ClientFields(merged) == ClientFields(payload)
    {
      merged := payload;
      var left := data.Keys;
      while left != {}
        invariant left <= data.Keys
        invariant forall k :: k in merged <==> k in payload || (k in data.Keys - left && Protected(k))
        invariant forall k :: k in merged ==> merged[k] == if k in data.Keys - left && Protected(k) then data[k] else payload[k]
        decreases left
      {
        var k :| k in left;
        left := left - {k};
        if Protected(k) {
          merged := merged[k := data[k]];
        }
      }
    }

    /** A session that is not in the tables yet and holds nothing but its login. */
    ghost predicate Blank(session: Session)
      reads this, session
    {
      && !Live(session) && LookupKey(session.addr) !in sessions
      && session.group == null && session.groupName == ""
      && session.reservation == NO_DATA && session.reservationID == 0
    }

    /** Exactly this session was added to both tables. */
    twostate predicate Published(session: Session)
      reads *
    {
      var key := LookupKey(session.addr);
      && old(Blank(session)) && session.searchID !in old(bySearchID) && session.searchID != 0
      && sessions == old(sessions)[key := session] && bySearchID == old(bySearchID)[session.searchID := session]
      && logins == old(logins) && groups == old(groups) && journal == old(journal) && entrances == old(entrances)
      && session.login == old(session.login) && session.Pid() == old(session.Pid())
      && session.group == null && session.groupName == "" && session.reservation == NO_DATA && session.reservationID == 0
      && (forall k :: k in old(sessions) ==> unchanged(old(sessions)[k]))
      && (forall n :: n in groups ==> unchanged(groups[n]))
      && (forall p :: p in logins ==> unchanged(logins[p]))
    }

    twostate lemma PublishedIndexed(session: Session)
      requires old(Indexed()) && Published(session)
      ensures Indexed()
    {
    }

    twostate lemma PublishedLogins(session: Session)
      requires old(LoginsOK(session)) && Published(session)
      ensures LoginsOK(null)
    {
      assert old(LoginLinked(session));
      forall k | k in sessions
        ensures LoginLinked(sessions[k])
      {
        assert k in old(sessions) ==> old(LoginLinked(sessions[k]));
      }
      forall p | p in logins && logins[p].session != null
        ensures Live(logins[p].session) && logins[p].session.login == logins[p]
      {
        assert logins[p].session == old(logins[p].session);
      }
    }

    twostate lemma PublishedGroups(session: Session)
      requires old(GroupsOK()) && Published(session)
      ensures GroupsOK()
    {
      forall n | n in groups
        ensures GroupOK(groups[n])
      {
        assert old(GroupOK(groups[n]));
      }
      forall k | k in sessions
        ensures GroupLinked(sessions[k])
      {
        assert k in old(sessions) ==> old(GroupLinked(sessions[k]));
      }
    }

    twostate lemma PublishedIndices(session: Session)
      requires old(AllIndicesOK()) && old(GroupsOK()) && Published(session)
      ensures AllIndicesOK()
    {
      hide GroupLinked;
      forall n, s | n in groups && s in groups[n].players
        ensures s.JoinIndex() == old(s.JoinIndex())
      {
        assert old(GroupOK(groups[n]));
        assert s == old(sessions[LookupKey(s.addr)]);
      }
      IndicesKept();
    }

    twostate lemma PublishedHistory(session: Session)
      requires old(HistoryOK()) && Published(session)
      ensures HistoryOK()
    {
      hide Outstanding, AllJustified;
      forall k | k in sessions
        ensures ReservationOK(sessions[k]) && Admitted(sessions[k])
      {
        assert k in old(sessions) ==> old(ReservationOK(sessions[k]) && Admitted(sessions[k]));
      }
    }

    /** Enters a new session into both tables under an unused search ID. */
    method Publish(session: Session)
      requires ValidWith(session) && Blank(session) && |bySearchID| < MAX_SEARCH_ID
      modifies this`sessions, this`bySearchID, session`searchID, session`data
      ensures Valid() && sessions == old(sessions)[LookupKey(session.addr) := session]
      ensures session.searchID !in old(bySearchID) && 1 <= session.searchID <= MAX_SEARCH_ID
      ensures bySearchID == old(bySearchID)[session.searchID := session]
      ensures session.data == old(session.data)["+searchid" := FormatNat(session.searchID)]
      ensures ClientFields(session.data) == old(ClientFields(session.data))
    {
      hide Indexed, LoginsOK, GroupsOK, AllIndicesOK, HistoryOK, ClientFields, LoginFields;
      FreeSearchID(bySearchID.Keys);
      KeysAgree();
      var searchID: nat :| 1 <= searchID <= MAX_SEARCH_ID && searchID !in bySearchID;
      session.searchID := searchID;
      ProtectedWrite(session.data, "+searchid", FormatNat(searchID));
      session.data := session.data["+searchid" := FormatNat(searchID)];
      bySearchID := bySearchID[searchID := session];
      sessions := sessions[LookupKey(session.addr) := session];
      PublishedValid(session);
    }

    twostate lemma PublishedValid(session: Session)
      requires old(ValidWith(session)) && Published(session)
      ensures Valid()
    {
      hide Indexed, LoginsOK, GroupsOK, AllIndicesOK, HistoryOK, Published;
      PublishedIndexed(session);
      PublishedLogins(session);
      PublishedGroups(session);
      PublishedIndices(session);
      PublishedHistory(session);
    }

    /** The login links with an unpublished session beside the tables. */
    lemma JoiningBlank(session: Session)
      requires Valid() && Blank(session) && session.login == null && session.Pid() == ""
      ensures ValidWith(session)
    {
    }

    /** Rewriting the data of a listed session, with its join index and profile kept. */
    method Rewrite(session: Session, data: map<string, string>)
      requires Valid() && Live(session)
      requires Get(data, "dwc_pid") == session.Pid() && Get(data, "+joinindex") == Get(session.data, "+joinindex")
      modifies session`data
      ensures Valid() && session.data == data
    {
      hide Indexed, LoginsOK, GroupsOK, AllIndicesOK, HistoryOK;
      session.data := data;
      IndexKept();
      LoginsKept(null);
      GroupsKept();
      IndicesKept();
      HistoryKept();
    }

    /** These are sessions that were there before, with all their fields. */
    twostate predicate AsBefore(new some: map<nat, Session>)
      reads some.Values
    {
      forall k :: k in some ==> k in old(sessions) && some[k] == old(sessions)[k] && unchanged(some[k])
    }

    /** At most the session at this key is new. */
    twostate lemma OneNew(key: nat)
      requires AsBefore(sessions - {key}) && (key in sessions ==> fresh(sessions[key]))
      requires logins == old(logins) && SubMap(groups, old(groups))
      ensures Accounted()
    {
      forall k | k in sessions
        ensures fresh(sessions[k]) || (k in old(sessions) && sessions[k] == old(sessions)[k])
      {
        if k != key {
          assert (sessions - {key})[k] == sessions[k];
        }
      }
    }

    /** Of the sessions before, only one that carried the profile ID in the payload is not at these keys. */
    twostate predicate OnlyHolderLost(payload: map<string, string>, keys: set<nat>) {
      forall k :: k in old(sessions) && k !in keys ==> "dwc_pid" in payload && old(sessions[k].Pid()) == payload["dwc_pid"]
    }

    twostate lemma KeptAsBefore(session: Session, new joining: Session?)
      requires OthersKept(session) && ValidWith(joining)
      ensures AsBefore(sessions - {LookupKey(session.addr)})
      ensures forall k :: k in sessions && sessions[k] == session ==> k == LookupKey(session.addr)
    {
      hide LoginsOK, GroupsOK, AllIndicesOK, HistoryOK, LookupKey;
    }

    twostate lemma NobodyLost(new payload: map<string, string>, session: Session)
      requires unchanged(this) && unchanged(sessions.Values) && unchanged(logins.Values) && unchanged(groups.Values)
      ensures OnlyHolderLost(payload, sessions.Keys) && OthersKept(session) && Shrunk()
    {
    }

    /** The profile ID of the session at this key, if there is one. */
    function PidAt(key: nat): string
      reads this`sessions, SessionAt(key)
    {
      if key in sessions then sessions[key].Pid() else ""
    }

    /** What a heartbeat from addr does once the sender is known; the payload carries no server fields. */
    method SetSessionData(addr: Addr, sessionID: U32, payload: map<string, string>, now: int, ratingOK: bool) returns (ok: bool)
      requires Valid() && |bySearchID| < MAX_SEARCH_ID
      requires forall k :: k in payload ==> k != "" && !ServerField(k)
      modifies this`sessions, this`bySearchID, this`groups, sessions.Values, logins.Values, groups.Values
      ensures Valid() && logins == old(logins) && journal == old(journal)
      ensures ok ==> LookupKey(addr) in sessions && sessions[LookupKey(addr)].sessionID == sessionID
      ensures ok && LookupKey(addr) in old(sessions) ==>
                && sessions[LookupKey(addr)] == old(sessions)[LookupKey(addr)]
                && sessions[LookupKey(addr)].group == old(sessions[LookupKey(addr)].group)
                && sessions[LookupKey(addr)].lastKeepAlive == now
      ensures ok ==> ClientFields(sessions[LookupKey(addr)].data) == ClientFields(payload)
      ensures ok && "dwc_pid" in payload ==> sessions[LookupKey(addr)].Pid() == payload["dwc_pid"]
      ensures ok <==> "dwc_pid" !in payload || old(PidVerdict(PidAt(LookupKey(addr)), payload["dwc_pid"], "", ratingOK)) != Refused
      ensures !ok ==> Unmoved()
      ensures OnlyHolderLost(payload, sessions.Keys)
      ensures AsBefore(sessions - {LookupKey(addr)})
      ensures ok && LookupKey(addr) !in old(sessions) ==> fresh(sessions[LookupKey(addr)]) && sessions[LookupKey(addr)].group == null
      ensures Accounted()
    {
      hide ClientFields, LoginFields, Shrunk, Unmoved, Accounted, PidVerdict, Indexed, LoginsOK, GroupsOK, AllIndicesOK, HistoryOK;
      var key := LookupKey(addr);
      var rest := payload - {"dwc_pid"};
      if key in sessions {
        KeyOf(key);
        ok := Refresh(sessions[key], sessionID, payload, rest, now, ratingOK);
        KeptAsBefore(old(sessions)[key], null);
        ShrunkAccounted();
      } else {
        ok := Create(addr, sessionID, payload, rest, now, ratingOK);
      }
    }

    method Refresh(session: Session, sessionID: U32, payload: map<string, string>, rest: map<string, string>, now: int, ratingOK: bool) returns (ok: bool)
      requires Valid() && Live(session) && rest == payload - {"dwc_pid"}
      requires forall k :: k in payload ==> k != "" && !ServerField(k)
      modifies this`sessions, this`bySearchID, this`groups, sessions.Values, logins.Values, groups.Values
      ensures Valid() && Live(session)
      ensures !ok ==> Unmoved()
      ensures ok ==> session.sessionID == sessionID && session.lastKeepAlive == now && session.group == old(session.group)
      ensures ok ==> ClientFields(session.data) == ClientFields(payload)
      ensures ok && "dwc_pid" in payload ==> session.Pid() == payload["dwc_pid"]
      ensures ok <==> "dwc_pid" !in payload || old(PidCheck(session, payload["dwc_pid"], "", ratingOK)) != Refused
      ensures OnlyHolderLost(payload, sessions.Keys)
      ensures OthersKept(session)
      ensures logins == old(logins) && Shrunk()
    {
      hide ValidWith, PidCheck, ClientFields, LoginFields, ProfileOf, FormatNat, LookupKey, Touched, GroupsFull, OthersKept, Unmoved, Shrunk;
      if "dwc_pid" in payload {
        ok := SetProfileID(session, payload["dwc_pid"], "", ratingOK, null);
        if !ok {
          return;
        }
      } else {
        NobodyLost(payload, session);
      }
      Renew(session, payload, rest, sessionID, now);
      ok := true;
    }

    method Renew(session: Session, ghost payload: map<string, string>, rest: map<string, string>, sessionID: U32, now: int)
      requires Valid() && Live(session) && rest == payload - {"dwc_pid"}
      requires forall k :: k in payload ==> k != "" && !ServerField(k)
      modifies session`data, session`sessionID, session`lastKeepAlive
      ensures Valid() && session.sessionID == sessionID && session.lastKeepAlive == now
      ensures ClientFields(session.data) == ClientFields(payload) && session.Pid() == old(session.Pid())
    {
      hide ValidWith, ClientFields;
      ProtectedWrite(payload, "dwc_pid", "");
      var merged := MergePayload(session.data, rest);
      Rewrite(session, merged);
      Stamp(session, sessionID, now);
    }

    method Stamp(session: Session, sessionID: U32, now: int)
      requires Valid() && Live(session)
      modifies session`sessionID, session`lastKeepAlive
      ensures Valid() && session.sessionID == sessionID && session.lastKeepAlive == now
    {
      hide Indexed, LoginsOK, GroupsOK, AllIndicesOK, HistoryOK;
      session.lastKeepAlive := now;
      session.sessionID := sessionID;
      IndexKept();
      LoginsKept(null);
      GroupsKept();
      IndicesKept();
      HistoryKept();
    }

    method Create(addr: Addr, sessionID: U32, payload: map<string, string>, rest: map<string, string>, now: int, ratingOK: bool) returns (ok: bool)
      requires Valid() && |bySearchID| < MAX_SEARCH_ID && LookupKey(addr) !in sessions && rest == payload - {"dwc_pid"}
      requires forall k :: k in payload ==> k != "" && !ServerField(k)
      modifies this`sessions, this`bySearchID, this`groups, sessions.Values, logins.Values, groups.Values
      ensures Valid()
      ensures !ok ==> Unmoved()
      ensures ok ==> LookupKey(addr) in sessions && fresh(sessions[LookupKey(addr)]) && sessions[LookupKey(addr)].sessionID == sessionID
      ensures ok ==> ClientFields(sessions[LookupKey(addr)].data) == ClientFields(payload)
      ensures ok && "dwc_pid" in payload ==> sessions[LookupKey(addr)].Pid() == payload["dwc_pid"]
      ensures ok <==> "dwc_pid" !in payload || old(PidVerdict("", payload["dwc_pid"], "", ratingOK)) != Refused
      ensures OnlyHolderLost(payload, sessions.Keys)
      ensures AsBefore(sessions - {LookupKey(addr)})
      ensures ok ==> sessions[LookupKey(addr)].group == null
      ensures Accounted()
    {
      hide ValidWith, Blank, Live, ClientFields, PidVerdict, LookupKey, ServerField, Protected, Accounted, SubMap;
      var session := Made(addr, sessionID, payload, rest, now);
      ok := Enlist(session, payload, ratingOK);
      OneNew(LookupKey(addr));
    }

    method Made(addr: Addr, sessionID: U32, ghost payload: map<string, string>, rest: map<string, string>, now: int) returns (session: Session)
      requires Valid() && LookupKey(addr) !in sessions && rest == payload - {"dwc_pid"}
      ensures fresh(session) && ValidWith(session) && Blank(session) && session.addr == addr && session.sessionID == sessionID
      ensures session.Pid() == "" && ClientFields(session.data) == ClientFields(payload)
    {
      hide ValidWith, ClientFields, LookupKey;
      ProtectedWrite(payload, "dwc_pid", "");
      session := new Session(addr, sessionID, rest, now);
      JoiningBlank(session);
    }

    method Enlist(session: Session, payload: map<string, string>, ratingOK: bool) returns (ok: bool)
      requires ValidWith(session) && Blank(session) && |bySearchID| < MAX_SEARCH_ID
      requires session.Pid() == "" && ClientFields(session.data) == ClientFields(payload)
      modifies this`sessions, this`bySearchID, this`groups, sessions.Values, logins.Values, groups.Values, session
      ensures Valid()
      ensures !ok ==> Unmoved()
      ensures ok ==> LookupKey(session.addr) in sessions && sessions[LookupKey(session.addr)] == session
      ensures ok ==> session.sessionID == old(session.sessionID) && ClientFields(session.data) == ClientFields(payload)
      ensures ok && "dwc_pid" in payload ==> session.Pid() == payload["dwc_pid"]
      ensures ok <==> "dwc_pid" !in payload || old(PidCheck(session, payload["dwc_pid"], "", ratingOK)) != Refused
      ensures OnlyHolderLost(payload, sessions.Keys)
      ensures AsBefore(sessions - {LookupKey(session.addr)}) && (LookupKey(session.addr) in sessions ==> ok)
      ensures ok ==> session.group == null
      ensures SubMap(groups, old(groups))
    {
      hide Indexed, LoginsOK, GroupsOK, AllIndicesOK, HistoryOK, ClientFields, LoginLinked, LookupKey, Unmoved, ValidWith, PidCheck, AsBefore, OnlyHolderLost, SubMap, Live, Blank;
      ok := TakeProfile(session, payload, ratingOK);
      ghost var others := sessions;
      if ok {
        SubsetSize(bySearchID.Keys, old(bySearchID.Keys));
        ListedOnce(session);
        Publish(session);
        StillOnlyHolderLost(payload, others.Keys, sessions.Keys);
      }
      assert sessions - {LookupKey(session.addr)} == others;
    }

    lemma ListedOnce(session: Session)
      requires ValidWith(session) && Blank(session)
      ensures session !in sessions.Values && LookupKey(session.addr) !in sessions
    {
    }

    twostate lemma StillOnlyHolderLost(new payload: map<string, string>, new keys: set<nat>, more: set<nat>)
      requires OnlyHolderLost(payload, keys) && keys <= more
      ensures OnlyHolderLost(payload, more)
    {
    }

    method TakeProfile(session: Session, payload: map<string, string>, ratingOK: bool) returns (ok: bool)
      requires ValidWith(session) && Blank(session) && session.Pid() == ""
      modifies this`sessions, this`bySearchID, this`groups, sessions.Values, logins.Values, groups.Values, session
      ensures ok ==> ValidWith(session) && Blank(session) && session.group == null
      ensures !ok ==> Valid() && Unmoved()
      ensures session.sessionID == old(session.sessionID) && ClientFields(session.data) == old(ClientFields(session.data))
      ensures ok && "dwc_pid" in payload ==> session.Pid() == payload["dwc_pid"]
      ensures ok <==> "dwc_pid" !in payload || old(PidCheck(session, payload["dwc_pid"], "", ratingOK)) != Refused
      ensures OnlyHolderLost(payload, sessions.Keys) && AsBefore(sessions) && LookupKey(session.addr) !in sessions
      ensures bySearchID.Keys <= old(bySearchID.Keys) && SubMap(groups, old(groups))
    {
      hide Indexed, LoginsOK, GroupsOK, AllIndicesOK, HistoryOK, ClientFields, LoginLinked, LookupKey, Unmoved, PidCheck, OthersKept;
      LinkOfAny(session, session);
      ok := true;
      if "dwc_pid" in payload {
        ok := SetProfileID(session, payload["dwc_pid"], "", ratingOK, session);
        if !ok {
          NotJoining(session);
        }
      } else {
        NobodyLost(payload, session);
      }
      KeptAsBefore(session, if ok then session else null);
      assert sessions - {LookupKey(session.addr)} == sessions;
    }

    /** A session under construction that got no login leaves no trace. */
    lemma NotJoining(session: Session)
      requires ValidWith(session) && session.login == null
      ensures Valid()
    {
    }

    // ---------- Logging in and out

    /** Only the entry of one profile, which no session uses before or after, changed. */
    twostate lemma LoginReplaced(p: nat)
      requires old(LoginsOK(null)) && sessions == old(sessions)
      requires forall k :: k in sessions ==> unchanged(sessions[k])
      requires forall q :: q != p ==> (q in logins <==> q in old(logins))
      requires forall q :: q != p && q in logins ==> logins[q] == old(logins)[q] && logins[q].session == old(logins[q].session)
      requires p in old(logins) ==> old(logins[p].session) == null
      requires p in logins ==> logins[p].session == null && logins[p].profileID == p
      ensures LoginsOK(null)
    {
      forall k | k in sessions
        ensures LoginLinked(sessions[k])
      {
        assert old(LoginLinked(sessions[k]));
      }
    }

    /** An entry of the same profile is overwritten; the invariant survives that if the entry had no session. */
    method Login(profileID: U32, inGameName: string, friendKeyGame: string, publicIP: string, deviceAuthenticated: bool, restricted: bool, openHost: bool)
      requires Valid()
      modifies this`logins
      ensures Valid() <==> profileID !in old(logins) || old(logins)[profileID].session == null
      ensures profileID in logins && fresh(logins[profileID]) && logins == old(logins)[profileID := logins[profileID]]
      ensures logins[profileID].session == null
      ensures logins[profileID].Record() == LoginRecord(profileID, inGameName, friendKeyGame, publicIP, deviceAuthenticated, restricted, openHost)
      ensures Accounted()
    {
      hide Indexed, LoginsOK, GroupsOK, AllIndicesOK, HistoryOK;
      var login := new LoginInfo(profileID, inGameName, friendKeyGame, publicIP, deviceAuthenticated, restricted, openHost);
      ghost var before := logins;
      if profileID in logins {
        LoginAt(profileID);
      }
      logins := logins[profileID := login];
      if profileID in before && before[profileID].session != null {
        LoginLost(before[profileID].session);
      } else {
        LoginReplaced(profileID);
        IndexKept();
        GroupsKept();
        IndicesKept();
        HistoryKept();
      }
    }

    /** A listed session whose login is not listed breaks the invariant. */
    lemma LoginLost(session: Session)
      requires Live(session) && session.login != null
      requires session.login.profileID in logins ==> logins[session.login.profileID] != session.login
      ensures !LoginsOK(null)
    {
      if LoginsOK(null) {
        LinkOf(session, null);
      }
    }

    /** The profile's login goes, and its session, if any, with it. */
    method Logout(profileID: U32)
      requires Valid()
      modifies this`logins, this`sessions, this`bySearchID, this`groups
      modifies HolderOfProfile(profileID)`login, HolderOfProfile(profileID)`group, HolderOfProfile(profileID)`groupName
      modifies LoginsOf(HolderOfProfile(profileID))`session
      modifies GroupsOf(HolderOfProfile(profileID))`players, GroupsOf(HolderOfProfile(profileID))`server, GroupsOf(HolderOfProfile(profileID))`matchType
      ensures Valid() && logins == old(logins) - {profileID} && Shrunk()
      ensures sessions == if profileID in old(logins) && old(logins[profileID].session) != null
                          then old(sessions) - {LookupKey(old(logins[profileID].session).addr)} else old(sessions)
    {
      hide Indexed, LoginsOK, GroupsOK, AllIndicesOK, HistoryOK;
      if profileID in logins {
        var login := logins[profileID];
        if login.session != null {
          LoginAt(profileID);
          RemoveSession(LookupKey(login.session.addr), null);
        }
        DropLogin(profileID);
      }
    }

    lemma LoginAt(profileID: nat)
      requires LoginsOK(null) && profileID in logins
      ensures logins[profileID].profileID == profileID
      ensures logins[profileID].session != null ==> Live(logins[profileID].session) && logins[profileID].session.login == logins[profileID]
    {
    }

    method DropLogin(profileID: nat)
      requires Valid() && profileID in logins && logins[profileID].session == null
      modifies this`logins
      ensures Valid() && logins == old(logins) - {profileID}
    {
      hide Indexed, LoginsOK, GroupsOK, AllIndicesOK, HistoryOK;
      logins := logins - {profileID};
      LoginReplaced(profileID);
      IndexKept();
      GroupsKept();
      IndicesKept();
      HistoryKept();
    }

    function LoginNamed(p: nat): set<LoginInfo>
      reads this`logins
    {
      if p in logins then {logins[p]} else {}
    }

    method SetDeviceAuthenticated(profileID: U32)
      requires Valid()
      modifies LoginNamed(profileID)`deviceAuthenticated, HolderOfProfile(profileID)`data
      ensures Valid()
      ensures profileID in logins ==> logins[profileID].deviceAuthenticated
      ensures profileID in logins && logins[profileID].session != null ==>
                logins[profileID].session.data == old(logins[profileID].session.data)["+deviceauth" := "1"]
    {
      hide Indexed, LoginsOK, GroupsOK, AllIndicesOK, HistoryOK;
      if profileID in logins {
        logins[profileID].deviceAuthenticated := true;
        LoginFieldsKept();
        if logins[profileID].session != null {
          LoginAt(profileID);
          var session := logins[profileID].session;
          Rewrite(session, session.data["+deviceauth" := "1"]);
        }
      }
    }

    method SetLoginOpenHost(profileID: U32, openHost: bool)
      requires Valid()
      modifies LoginNamed(profileID)`openHost
      ensures Valid() && (profileID in logins ==> logins[profileID].openHost == openHost)
    {
      hide Indexed, LoginsOK, GroupsOK, AllIndicesOK, HistoryOK;
      if profileID in logins {
        logins[profileID].openHost := openHost;
        LoginFieldsKept();
      }
    }

    /** The invariant does not look at the other fields of a login. */
    twostate lemma LoginFieldsKept()
      requires old(Valid()) && unchanged(this) && unchanged(sessions.Values) && unchanged(groups.Values)
      requires forall p :: p in logins ==> logins[p].session == old(logins[p].session)
      ensures Valid()
    {
      hide Indexed, LoginsOK, GroupsOK, AllIndicesOK, HistoryOK;
      IndexKept();
      LoginsKept(null);
      GroupsKept();
      IndicesUntouched();
      HistoryKept();
    }

    twostate lemma IndicesUntouched()
      requires old(AllIndicesOK()) && old(GroupsOK()) && unchanged(this) && unchanged(sessions.Values) && unchanged(groups.Values)
      ensures AllIndicesOK()
    {
      forall n, s | n in groups && s in groups[n].players
        ensures s.JoinIndex() == old(s.JoinIndex())
      {
        assert old(GroupOK(groups[n]));
        assert s == old(sessions[LookupKey(s.addr)]);
      }
      IndicesKept();
    }

    /** Packets from a listed address that change fields of their session only. */
    method ProcessPacket(key: nat, sessionID: U32, challengeMet: bool, keepAlive: bool, now: int)
      requires Valid()
      modifies SessionAt(key)`sessionID, SessionAt(key)`authenticated, SessionAt(key)`lastKeepAlive
      ensures Valid()
      ensures key in sessions ==>
                && sessions[key].sessionID == sessionID
                && sessions[key].authenticated == (challengeMet || old(sessions[key].authenticated))
                && sessions[key].lastKeepAlive == if keepAlive then now else old(sessions[key].lastKeepAlive)
    {
      hide ValidWith;
      if key in sessions {
        Keyed();
        var session := sessions[key];
        if challengeMet {
          Authenticate(session);
        }
        Stamp(session, sessionID, if keepAlive then now else session.lastKeepAlive);
      }
    }

    method Authenticate(session: Session)
      requires Valid() && Live(session)
      modifies session`authenticated
      ensures Valid() && session.authenticated
    {
      hide Indexed, LoginsOK, GroupsOK, AllIndicesOK, HistoryOK;
      session.authenticated := true;
      IndexKept();
      LoginsKept(null);
      GroupsKept();
      IndicesKept();
      HistoryKept();
    }

    // ---------- Expiry

    /** Removes exactly the sessions that have not been heard of for an hour. */
    method ExpireSessions(now: int)
      requires Valid()
      modifies this`sessions, this`bySearchID, this`groups, sessions.Values, logins.Values, groups.Values
      ensures Valid() && logins == old(logins)
      ensures forall k :: k in sessions <==> k in old(sessions) && old(sessions[k].lastKeepAlive) >= now - 3600
      ensures forall k :: k in sessions ==> sessions[k] == old(sessions)[k]
      ensures Shrunk()
    {
      hide ValidWith;
      var unreachable: set<nat> := {};
      var left := sessions.Keys;
      while left != {}
        invariant left <= sessions.Keys
        invariant forall k :: k in unreachable <==> k in sessions.Keys - left && sessions[k].lastKeepAlive < now - 3600
        decreases left
      {
        var k :| k in left;
        left := left - {k};
        if sessions[k].lastKeepAlive < now - 60 {
          if sessions[k].lastKeepAlive < now - 60 * 60 {
            unreachable := unreachable + {k};
          }
        }
      }
      RemoveAll(unreachable);
    }

    method RemoveListed(key: nat)
      requires Valid()
      modifies this`sessions, this`bySearchID, this`groups, sessions.Values, logins.Values, groups.Values
      ensures Valid() && sessions == old(sessions) - {key} && logins == old(logins)
      ensures Shrunk()
    {
      hide Indexed, LoginsOK, GroupsOK, AllIndicesOK, HistoryOK;
      if key in sessions {
        KeyOf(key);
        TouchedListed(sessions[key], null);
      }
      RemoveSession(key, null);
    }

    method RemoveAll(keys: set<nat>)
      requires Valid() && keys <= sessions.Keys
      modifies this`sessions, this`bySearchID, this`groups, sessions.Values, logins.Values, groups.Values
      ensures Valid() && sessions == old(sessions) - keys && logins == old(logins) && Shrunk()
    {
      hide Indexed, LoginsOK, GroupsOK, AllIndicesOK, HistoryOK;
      var left := keys;
      while left != {}
        invariant left <= keys && Valid() && logins == old(logins)
        invariant sessions == old(sessions) - (keys - left)
        invariant Shrunk()
        decreases left
      {
        var k :| k in left;
        left := left - {k};
        RemoveListed(k);
      }
    }

    // ---------- Founding and joining a group

    /** Exactly one new group, holding only `sender`, appeared. */
    twostate predicate Founded(sender: Session)
      reads *
    {
      && old(sender.group) == null && sender.group != null && fresh(sender.group)
      && var g := sender.group;
      && g.groupName !in old(groups) && g.groupName != "" && groups == old(groups)[g.groupName := g]
      && g.players == {sender} && g.server == sender && g.lastJoinIndex == 0
      && sender.groupName == g.groupName && sender.JoinIndex() == Some(0)
      && sessions == old(sessions) && bySearchID == old(bySearchID) && logins == old(logins) && journal == old(journal)
      && (forall k :: k in sessions && sessions[k] != sender ==> unchanged(sessions[k]))
      && (forall n :: n in old(groups) ==> unchanged(old(groups)[n]))
      && (forall p :: p in logins ==> unchanged(logins[p]))
    }

    twostate lemma FoundedGroups(sender: Session)
      requires old(GroupsOK()) && Founded(sender) && Live(sender)
      ensures GroupsOK()
    {
      forall n | n in groups
        ensures n != "" && groups[n].groupName == n && GroupOK(groups[n])
      {
        assert n in old(groups) ==> old(GroupOK(groups[n]));
      }
      forall k | k in sessions
        ensures GroupLinked(sessions[k])
      {
        assert old(GroupLinked(sessions[k]));
      }
    }

    twostate lemma FoundedIndices(sender: Session)
      requires old(AllIndicesOK()) && old(GroupsOK()) && Founded(sender)
      ensures AllIndicesOK()
    {
      forall n | n in groups
        ensures IndicesOK(groups[n])
      {
        if n in old(groups) {
          assert old(IndicesOK(groups[n])) && old(GroupOK(groups[n]));
          forall s | s in groups[n].players
            ensures s.JoinIndex() == old(s.JoinIndex())
          {
            assert s == old(sessions[LookupKey(s.addr)]);
          }
        }
      }
    }

    /** The data of a session that is given a join index. */
    function JoinFields(data: map<string, string>, index: nat, matchVersion: int, localPlayerCount: U32): (d: map<string, string>)
      ensures Get(d, "dwc_pid") == Get(data, "dwc_pid") && ParseInt(Get(d, "+joinindex")) == Some(index)
      ensures Get(d, "dwc_mtype") == Get(data, "dwc_mtype")
    {
      ParseOfFormat(index);
      var d := data["+joinindex" := FormatNat(index)];
      if matchVersion == 90 then d["+localplayers" := FormatNat(localPlayerCount)] else d
    }

    /** The index is the one given, the player count is set for version 90 only, and no other field is touched. */
    lemma JoinFieldsAre(data: map<string, string>, index: nat, matchVersion: int, localPlayerCount: U32)
      ensures var d := JoinFields(data, index, matchVersion, localPlayerCount);
              && "+joinindex" in d && ParseInt(d["+joinindex"]) == Some(index)
              && (matchVersion == 90 ==> "+localplayers" in d && ParseInt(d["+localplayers"]) == Some(localPlayerCount))
              && forall k :: k != "+joinindex" && !(matchVersion == 90 && k == "+localplayers") ==>
                   (k in d <==> k in data) && (k in d ==> d[k] == data[k])
    {
      ParseOfFormat(localPlayerCount);
    }

    /** The first half of processResvOK. `name` is the random name the source's loop settles on. */
    method FoundGroup(sender: Session, resvOK: ResvOK, matchVersion: int, name: string)
      requires Valid() && Live(sender) && sender.group == null && name != "" && name !in groups
      modifies this`groups, this`entrances, sender`data, sender`group, sender`groupName
      ensures sender.groupName == name && sender.group != null && sender.group.FollowsServer()
      ensures sender.group.Record() == GroupRecord(name, old(Get(sender.data, "gamename")), resvOK.groupID, old(Get(sender.data, "dwc_mtype")),
                                                   if old(Get(sender.data, "gamename")) == "mariokartwii" then NormalizeMKWRegion(old(Get(sender.data, "rk"))) else "", 0)
      ensures sender.data == JoinFields(old(sender.data), 0, matchVersion, resvOK.localPlayerCount)
      ensures entrances == old(entrances) + {Entrance(sender, sender.group, Founder)}
      ensures Valid() && Founded(sender)
    {
      hide Indexed, LoginsOK, GroupsOK, AllIndicesOK, HistoryOK, ValidWith, JoinFields, Live, NormalizeMKWRegion, ParseInt;
      var gameName := Get(sender.data, "gamename");
      var region := if gameName == "mariokartwii" then NormalizeMKWRegion(Get(sender.data, "rk")) else "";
      var group := new Group(name, gameName, resvOK.groupID, Get(sender.data, "dwc_mtype"), region, sender);
      sender.data := JoinFields(sender.data, 0, matchVersion, resvOK.localPlayerCount);
      sender.group := group;
      sender.groupName := name;
      groups := groups[name := group];
      entrances := entrances + {Entrance(sender, group, Founder)};
      FoundedValid(sender);
    }

    twostate lemma FoundedValid(sender: Session)
      requires old(Valid()) && Founded(sender) && Live(sender)
      requires sender.login == old(sender.login) && sender.Pid() == old(sender.Pid()) && sender.searchID == old(sender.searchID)
      requires sender.reservation == old(sender.reservation) && sender.reservationID == old(sender.reservationID)
      requires entrances == old(entrances) + {Entrance(sender, sender.group, Founder)}
      ensures Valid()
    {
      hide Indexed, LoginsOK, GroupsOK, AllIndicesOK, HistoryOK;
      FoundedGroups(sender);
      FoundedIndices(sender);
      IndexKept();
      LoginsKept(null);
      EntranceKept(Entrance(sender, sender.group, Founder));
    }

    /** The join-index rule for everyone in the group but d. */
    ghost predicate IndicesOKBut(g: Group, d: Session)
      reads g, g.players
    {
      && (forall p, q :: p in g.players && q in g.players && p != q && p != d && q != d ==> p.JoinIndex() != q.JoinIndex())
      && (forall s :: s in g.players && s != d ==> s.JoinIndex().Some? && 0 <= s.JoinIndex().value <= g.lastJoinIndex)
    }

    ghost predicate IndicesExcept(d: Session)
      reads this, groups.Values, set g, s | g in groups.Values && s in g.players :: s
    {
      forall n :: n in groups ==> IndicesOKBut(groups[n], d)
    }

    ghost predicate NewestIn(d: Session, group: Group)
      reads d, group, group.players
    {
      && d.JoinIndex() == Some(group.lastJoinIndex)
      && forall s :: s in group.players ==> s.JoinIndex().Some? && s.JoinIndex().value < group.lastJoinIndex
    }

    /** The newcomer gets the next join index, before it leaves the group it was in. */
    method Number(d: Session, group: Group, localPlayerCount: U32, matchVersion: int)
      requires Valid() && Live(d)
      requires group.groupName in groups && groups[group.groupName] == group && d !in group.players
      modifies group`lastJoinIndex, d`data
      ensures Indexed() && LoginsOK(null) && GroupsOK() && HistoryOK() && IndicesExcept(d)
      ensures NewestIn(d, group) && group.lastJoinIndex == old(group.lastJoinIndex) + 1
      ensures d.data == JoinFields(old(d.data), group.lastJoinIndex, matchVersion, localPlayerCount)
    {
      hide Indexed, LoginsOK, GroupsOK, AllIndicesOK, HistoryOK, JoinFields;
      group.lastJoinIndex := group.lastJoinIndex + 1;
      d.data := JoinFields(d.data, group.lastJoinIndex, matchVersion, localPlayerCount);
      IndexKept();
      LoginsKept(null);
      GroupsKept();
      HistoryKept();
      NumberedIndices(d);
      NumberedNewest(d, group.groupName);
    }

    twostate lemma NumberedIndices(d: Session)
      requires old(AllIndicesOK()) && old(GroupsOK()) && groups == old(groups) && sessions == old(sessions)
      requires forall k :: k in sessions && sessions[k] != d ==> unchanged(sessions[k])
      requires forall n :: n in groups ==> groups[n].players == old(groups[n].players) && groups[n].lastJoinIndex >= old(groups[n].lastJoinIndex)
      ensures IndicesExcept(d)
    {
      forall n | n in groups
        ensures IndicesOKBut(groups[n], d)
      {
        assert old(GroupOK(groups[n])) && old(IndicesOK(groups[n]));
        forall s | s in groups[n].players && s != d
          ensures s.JoinIndex() == old(s.JoinIndex())
        {
          assert s == old(sessions[LookupKey(s.addr)]);
        }
      }
    }

    twostate lemma NumberedNewest(d: Session, new name: string)
      requires old(AllIndicesOK()) && old(GroupsOK()) && groups == old(groups) && sessions == old(sessions)
      requires name in groups && d !in groups[name].players && groups[name].players == old(groups[name].players)
      requires d.JoinIndex() == Some(groups[name].lastJoinIndex) && groups[name].lastJoinIndex == old(groups[name].lastJoinIndex) + 1
      requires forall k :: k in sessions && sessions[k] != d ==> unchanged(sessions[k])
      ensures NewestIn(d, groups[name])
    {
      assert old(IndicesOK(groups[name])) && old(GroupOK(groups[name]));
      forall s | s in groups[name].players
        ensures s.JoinIndex() == old(s.JoinIndex())
      {
        assert s == old(sessions[LookupKey(s.addr)]);
      }
    }

    /** d, in no group, entered `group` and nothing else changed. */
    twostate predicate Entered(d: Session)
      reads *
    {
      && old(d.group) == null && d.group != null && d.groupName == d.group.groupName
      && groups == old(groups) && d.groupName in groups && groups[d.groupName] == d.group
      && var n := d.groupName;
      && groups[n].players == old(groups[n].players) + {d} && groups[n].server == old(groups[n].server)
      && groups[n].lastJoinIndex == old(groups[n].lastJoinIndex) && d.data == old(d.data)
      && sessions == old(sessions)
      && (forall k :: k in sessions && sessions[k] != d ==> unchanged(sessions[k]))
      && (forall m :: m in groups && m != n ==> unchanged(groups[m]))
    }

    twostate lemma EnteredGroups(d: Session)
      requires old(GroupsOK()) && Entered(d) && Live(d)
      ensures GroupsOK()
    {
      forall n | n in groups
        ensures n != "" && groups[n].groupName == n && GroupOK(groups[n])
      {
        assert old(GroupOK(groups[n]));
      }
      forall k | k in sessions
        ensures GroupLinked(sessions[k])
      {
        assert old(GroupLinked(sessions[k]));
      }
    }

    twostate lemma EnteredIndices(d: Session)
      requires old(GroupsOK()) && old(IndicesExcept(d)) && Entered(d)
      requires var n := d.groupName; old(NewestIn(d, groups[n]))
      ensures AllIndicesOK()
    {
      hide Entered, GroupOK, IndicesOKBut, NewestIn;
      assert groups == old(groups) by { EnteredSameGroups(d); }
      forall n | n in groups
        ensures IndicesOK(groups[n])
      {
        assert old(GroupOK(groups[n])) && old(IndicesOKBut(groups[n], d));
        EnteredIndex(d, n);
      }
    }

    twostate lemma EnteredSameGroups(d: Session)
      requires Entered(d)
      ensures groups == old(groups) && d.groupName in groups
    {
    }

    twostate lemma EnteredIndex(d: Session, new n: string)
      requires Entered(d) && n in groups
      requires old(GroupOK(groups[n])) && old(IndicesOKBut(groups[n], d))
      requires n == d.groupName ==> old(NewestIn(d, groups[n]))
      ensures IndicesOK(groups[n])
    {
      forall s | s in old(groups[n].players)
        ensures s != d && s.JoinIndex() == old(s.JoinIndex())
      {
        assert s == old(sessions[LookupKey(s.addr)]);
      }
      if n != d.groupName {
        assert groups[n].players == old(groups[n].players);
      }
    }

    method Enter(d: Session, group: Group, ghost way: Way)
      requires Justified(journal, d, way)
      requires Indexed() && LoginsOK(null) && GroupsOK() && HistoryOK() && IndicesExcept(d) && NewestIn(d, group)
      requires Live(d) && d.group == null && group.groupName in groups && groups[group.groupName] == group
      modifies this`entrances, group`players, d`group, d`groupName
      ensures Valid() && d.group == group && group.players == old(group.players) + {d}
      ensures entrances == old(entrances) + {Entrance(d, group, way)}
    {
      hide Indexed, LoginsOK, GroupsOK, AllIndicesOK, HistoryOK, IndicesExcept, NewestIn;
      KeyedGroups();
      group.players := group.players + {d};
      d.group := group;
      d.groupName := group.groupName;
      entrances := entrances + {Entrance(d, group, way)};
      EnteredGroups(d);
      EnteredIndices(d);
      IndexKept();
      LoginsKept(null);
      EntranceKept(Entrance(d, group, way));
    }

    lemma KeyedGroups()
      requires GroupsOK()
      ensures forall n :: n in groups ==> groups[n].groupName == n
    {
    }

    /** Groups only lost members, so the rule for everyone but d still holds. */
    twostate lemma IndicesExceptKept(d: Session)
      requires old(IndicesExcept(d)) && old(GroupsOK()) && sessions == old(sessions)
      requires forall n :: n in groups ==> n in old(groups) && groups[n] == old(groups)[n]
      requires forall n :: n in groups ==> groups[n].players <= old(groups[n].players) && groups[n].lastJoinIndex == old(groups[n].lastJoinIndex)
      requires forall k :: k in sessions ==> sessions[k].data == old(sessions[k].data)
      ensures IndicesExcept(d)
    {
      forall n | n in groups
        ensures IndicesOKBut(groups[n], d)
      {
        assert old(GroupOK(groups[n])) && old(IndicesOKBut(groups[n], d));
        forall s | s in groups[n].players
          ensures s in old(groups[n].players) && s.JoinIndex() == old(s.JoinIndex())
        {
          assert s == old(sessions[LookupKey(s.addr)]);
        }
      }
    }

    /** Leaving the old group on the way into another one. */
    method LeaveFor(d: Session, group: Group)
      requires Indexed() && LoginsOK(null) && GroupsOK() && HistoryOK() && IndicesExcept(d) && NewestIn(d, group)
      requires Live(d) && d.group != group && group.groupName in groups && groups[group.groupName] == group
      modifies this`groups, d`group, d`groupName
      modifies if d.group != null then {d.group} else {}
      ensures Indexed() && LoginsOK(null) && GroupsOK() && HistoryOK() && IndicesExcept(d) && NewestIn(d, group)
      ensures d.group == null && group.groupName in groups && groups[group.groupName] == group
      ensures groups.Keys <= old(groups).Keys && forall n :: n in groups ==> groups[n] == old(groups)[n]
    {
      hide Indexed, LoginsOK, GroupsOK, AllIndicesOK, HistoryOK, IndicesExcept, GroupOK, GroupLinked, Live, ServerIsMember;
      if d.group == null {
        return;
      }
      InGroup(d);
      KeyedGroups();
      RemoveFromGroup(d);
      LoginsKept(null);
      HistoryKept();
      IndicesExceptKept(d);
    }

    /** The second half of processResvOK. */
    method JoinGroup(d: Session, group: Group, localPlayerCount: U32, matchVersion: int, ghost way: Way)
      requires Valid() && Live(d) && Justified(journal, d, way)
      requires group.groupName in groups && groups[group.groupName] == group && d !in group.players
      modifies this`groups, this`entrances, group, d`data, d`group, d`groupName
      modifies if d.group != null then {d.group} else {}
      ensures Valid() && d.group == group && entrances == old(entrances) + {Entrance(d, group, way)}
      ensures group.players == old(group.players) + {d} && group.groupID == old(group.groupID) && group.server == old(group.server)
      ensures group.lastJoinIndex == old(group.lastJoinIndex) + 1 && d.JoinIndex() == Some(group.lastJoinIndex)
      ensures d.data == JoinFields(old(d.data), group.lastJoinIndex, matchVersion, localPlayerCount)
      ensures groups.Keys <= old(groups).Keys && forall n :: n in groups ==> groups[n] == old(groups)[n]
    {
      hide Indexed, LoginsOK, GroupsOK, AllIndicesOK, HistoryOK, IndicesExcept, Live, Justified, Outstanding, JoinFields, NewestIn;
      NotMember(d);
      Number(d, group, localPlayerCount, matchVersion);
      LeaveFor(d, group);
      Enter(d, group, way);
    }

    lemma NotMember(d: Session)
      requires GroupsOK() && Live(d)
      ensures d.group != null ==> d in d.group.players
    {
      if d.group != null {
        InGroup(d);
      }
    }

    method SetGroupID(group: Group, groupID: U32)
      requires Valid()
      modifies group`groupID
      ensures Valid() && group.groupID == groupID
    {
      hide Indexed, LoginsOK, GroupsOK, AllIndicesOK, HistoryOK;
      group.groupID := groupID;
      IndexKept();
      LoginsKept(null);
      GroupsKept();
      IndicesKept();
      HistoryKept();
    }

    /** The source refuses to hold more groups than this. */
    predicate GroupsFull()
      reads this`groups
    {
      |groups| >= 100000
    }

    /** The record of a session that was in one group and is in another now. */
    static ghost function Comes(who: Session, was: Group?, now: Group?, way: Way): set<Entrance> {
      if now != null && now != was then {Entrance(who, now, way)} else {}
    }

    /** Who came into a group when `sender` accepted `receiver`, and how. */
    twostate function NewEntrances(sender: Session, receiver: Session, way: Way): set<Entrance>
      reads sender`group, receiver`group
    {
      Comes(sender, old(sender.group), sender.group, Founder)
      + if receiver == sender then {} else Comes(receiver, old(receiver.group), receiver.group, way)
    }

    twostate lemma NoNewEntrances(sender: Session, new receiver: Session, new way: Way)
      requires old(allocated(receiver)) && sender.group == old(sender.group)
      requires receiver.group == old(receiver.group) || receiver.group == null
      ensures old(entrances) + NewEntrances(sender, receiver, way) == old(entrances)
    {
    }

    twostate lemma EntrancesAdd(sender: Session, new receiver: Session, new way: Way, new first: set<Entrance>, new second: set<Entrance>)
      requires old(allocated(receiver))
      requires first == Comes(sender, old(sender.group), sender.group, Founder)
      requires second == if receiver == sender then {} else Comes(receiver, old(receiver.group), receiver.group, way)
      ensures old(entrances) + first + second == old(entrances) + NewEntrances(sender, receiver, way)
    {
    }

    /** These groups were listed before or are new. */
    twostate predicate OldOrNew(new listed: map<string, Group>) {
      forall n :: n in listed ==> fresh(listed[n]) || (n in old(groups) && listed[n] == old(groups)[n])
    }

    twostate lemma GroupsAccounted(new listed: map<string, Group>)
      requires OldOrNew(listed) && SubMap(groups, listed) && sessions == old(sessions) && logins == old(logins)
      ensures Accounted()
    {
    }

    /** The sender's group, founded now if there is none, gets the group ID of the answer. */
    method Host(sender: Session, resvOK: ResvOK, matchVersion: int, name: string) returns (ghost first: set<Entrance>)
      requires Valid() && Live(sender) && name != "" && name !in groups
      modifies this`groups, this`entrances, sender`data, sender`group, sender`groupName, GroupOf(sender)`groupID
      ensures Valid() && sender.group != null && sender.group.groupID == resvOK.groupID && sender in sender.group.players
      ensures sender.group.groupName in groups && groups[sender.group.groupName] == sender.group
      ensures old(sender.group) == null ==> fresh(sender.group) && sender.group.players == {sender} && sender.group.server == sender
      ensures old(sender.group) == null ==> sender.data == JoinFields(old(sender.data), 0, matchVersion, resvOK.localPlayerCount)
      ensures old(sender.group) != null ==> sender.group == old(sender.group) && sender.data == old(sender.data)
      ensures first == Comes(sender, old(sender.group), sender.group, Founder) && entrances == old(entrances) + first
      ensures OldOrNew(groups)
    {
      hide Indexed, LoginsOK, GroupsOK, AllIndicesOK, HistoryOK, ValidWith, LookupKey, FormatNat, ParseInt, JoinFields, Live;
      first := {};
      if sender.group == null {
        FoundGroup(sender, resvOK, matchVersion, name);
        first := {Entrance(sender, sender.group, Founder)};
      }
      SetGroupID(sender.group, resvOK.groupID);
      MemberOf(sender);
    }

    /** The destination joins the group, unless it is a member. */
    method Admit(destination: Session, group: Group, localPlayerCount: U32, matchVersion: int, ghost way: Way) returns (ghost second: set<Entrance>)
      requires Valid() && Live(destination)
      requires group.groupName in groups && groups[group.groupName] == group
      requires destination !in group.players ==> Justified(journal, destination, way)
      modifies this`groups, this`entrances, group, destination`data, destination`group, destination`groupName, GroupOf(destination)
      ensures Valid() && destination.group == group
      ensures group.players == old(group.players) + {destination} && group.groupID == old(group.groupID) && group.server == old(group.server)
      ensures destination in old(group.players) ==> destination.data == old(destination.data) && old(destination.group) == group
      ensures destination !in old(group.players) ==>
                destination.data == JoinFields(old(destination.data), group.lastJoinIndex, matchVersion, localPlayerCount) && old(destination.group) != group
      ensures second == Comes(destination, old(destination.group), group, way) && entrances == old(entrances) + second
      ensures old(destination.group) == group ==> second == {}
      ensures SubMap(groups, old(groups))
    {
      hide Indexed, LoginsOK, GroupsOK, AllIndicesOK, HistoryOK, ValidWith, LookupKey, FormatNat, ParseInt, JoinFields, Justified;
      MemberOf(destination);
      second := {};
      if destination !in group.players {
        JoinGroup(destination, group, localPlayerCount, matchVersion, way);
        second := {Entrance(destination, group, way)};
      }
    }

    /** `way` says how the destination comes in, if it is not in the sender's group yet. */
    method ProcessResvOK(matchVersion: int, localPlayerCount: U32, resvOK: ResvOK, sender: Session, destination: Session, name: string,
                         ghost way: Way) returns (ok: bool)
      requires Valid() && Live(sender) && Live(destination) && name != "" && name !in groups
      requires sender != destination && !Together(sender, destination) ==> Justified(journal, destination, way)
      modifies this`groups, this`entrances, sender`data, sender`group, sender`groupName
      modifies destination`data, destination`group, destination`groupName
      modifies GroupOf(sender), GroupOf(destination)
      ensures Valid() && ok == !old(GroupsFull())
      ensures !ok ==> unchanged(this) && unchanged(sender) && unchanged(destination)
      ensures ok ==> Together(sender, destination) && sender.group.groupID == resvOK.groupID
      ensures ok && old(sender.group) != null ==> sender.group == old(sender.group) && sender.group.players == old(sender.group.players) + {destination}
      ensures ok && sender != destination ==>
                sender.data == if old(sender.group) == null then JoinFields(old(sender.data), 0, matchVersion, resvOK.localPlayerCount) else old(sender.data)
      ensures ok && sender != destination && (old(sender.group) == null || destination !in old(sender.group.players)) ==>
                destination.data == JoinFields(old(destination.data), sender.group.lastJoinIndex, matchVersion, localPlayerCount)
      ensures ok && old(sender.group) != null && destination in old(sender.group.players) ==> destination.data == old(destination.data)
      ensures ok && old(sender.group) == null ==> fresh(sender.group) && sender.group.players == {sender, destination} && sender.group.server == sender
      ensures entrances == old(entrances) + NewEntrances(sender, destination, way)
      ensures Accounted()
    {
      hide ValidWith, LookupKey, FormatNat, ParseInt, JoinFields, Justified, NewEntrances, Live, OldOrNew, SubMap, Accounted, Comes, AllIndicesOK, GroupsOK, LoginsOK, HistoryOK;
      if |groups| >= 100000 {
        NoNewEntrances(sender, destination, way);
        NothingAdded();
        return false;
      }
      MemberOf(destination);
      ghost var first := Host(sender, resvOK, matchVersion, name);
      ghost var listed := groups;
      ghost var second := Admit(destination, sender.group, localPlayerCount, matchVersion, way);
      EntrancesAdd(sender, destination, way, first, second);
      GroupsAccounted(listed);
      return true;
    }

    lemma MemberOf(s: Session)
      requires Valid() && Live(s)
      ensures s.group != null ==> s in s.group.players && s.group.groupName in groups && groups[s.group.groupName] == s.group
      ensures forall n :: n in groups && s in groups[n].players ==> groups[n] == s.group
      ensures s in sessions.Values
    {
      if s.group != null {
        InGroup(s);
      }
      MembersSpread(s);
    }

    // ---------- Requests that come in through GPCM

    /** Both sessions are, or may become, the ones of these profiles. */
    predicate Identifiable(from: Session, to: Session, senderPid: U32, destPid: U32, senderRatingOK: bool, destRatingOK: bool)
      reads this`logins, from`data, to`data
    {
      && PidCheck(from, FormatNat(senderPid), "", senderRatingOK) != Refused
      && if from == to then senderPid == destPid else PidCheck(to, FormatNat(destPid), "", destRatingOK) != Refused
    }

    /** Ties both sessions to their profiles; the pair stays listed when both are accepted. */
    method Identify(from: Session, to: Session, senderPid: U32, destPid: U32, senderRatingOK: bool, destRatingOK: bool) returns (ok: bool)
      requires Valid() && Live(from) && Live(to) && (senderPid == destPid ==> from == to)
      modifies this`sessions, this`bySearchID, this`groups, sessions.Values, logins.Values, groups.Values
      ensures Valid() && logins == old(logins)
      ensures ok <==> old(Identifiable(from, to, senderPid, destPid, senderRatingOK, destRatingOK))
      ensures ok ==> Live(from) && Live(to) && from.Pid() == FormatNat(senderPid) && to.Pid() == FormatNat(destPid)
      ensures from.group == old(from.group) && (to.group == old(to.group) || (!ok && to.group == null))
      ensures Shrunk()
    {
      hide JoinFields, LoginFields, Unmoved, Accounted, Indexed, LoginsOK, GroupsOK, AllIndicesOK, HistoryOK, ValidWith, ClientFields, ProfileOf, FormatNat, LookupKey, Touched, GroupsFull;
      PidsDiffer(senderPid, destPid);
      ghost var second := PidCheck(to, FormatNat(destPid), "", destRatingOK);
      ok := SetProfileID(from, FormatNat(senderPid), "", senderRatingOK, null);
      if !ok {
        return;
      }
      assert from != to ==> PidCheck(to, FormatNat(destPid), "", destRatingOK) == second by {
        assert old(sessions)[LookupKey(to.addr)] == to;
      }
      if !Live(to) {
        // The receiver was the sender's outdated session; it still carries the sender's profile and is refused.
        assert second == Refused;
        return false;
      }
      ok := IdentifySecond(from, to, senderPid, destPid, destRatingOK);
    }

    method IdentifySecond(from: Session, to: Session, senderPid: U32, destPid: U32, destRatingOK: bool) returns (ok: bool)
      requires Valid() && Live(from) && Live(to) && (senderPid == destPid ==> from == to)
      requires from.login != null && from.login.profileID == senderPid && from.Pid() == FormatNat(senderPid)
      modifies this`sessions, this`bySearchID, this`groups, sessions.Values, logins.Values, groups.Values
      ensures Valid() && logins == old(logins) && Shrunk()
      ensures ok <==> old(PidCheck(to, FormatNat(destPid), "", destRatingOK)) != Refused
      ensures ok ==> Live(from) && Live(to) && from.Pid() == FormatNat(senderPid) && to.Pid() == FormatNat(destPid)
      ensures from.group == old(from.group) && to.group == old(to.group)
    {
      hide Indexed, LoginsOK, GroupsOK, AllIndicesOK, HistoryOK, ValidWith, ClientFields, ProfileOf, FormatNat, LookupKey, Touched, GroupsFull, Shrunk;
      PidsDiffer(senderPid, destPid);
      HoldsOnly(from, senderPid, destPid);
      ok := SetProfileID(to, FormatNat(destPid), "", destRatingOK, null);
    }

    /** The listed sessions other than these two were listed before, and came into no group. */
    twostate predicate LeftAlone(from: Session, to: Session)
      reads this`sessions, (sessions.Values - {from, to})`group
    {
      forall k :: k in sessions ==>
        && k in old(sessions) && sessions[k] == old(sessions)[k]
        && (sessions[k] != from && sessions[k] != to ==> sessions[k].group == old(sessions[k].group) || sessions[k].group == null)
    }

    /** Nobody but these two sessions came into a group, and how they did is on record. */
    twostate predicate Paired(from: Session, to: Session, way: Way)
      reads this`sessions, this`entrances, sessions.Values`group, from`group, to`group
    {
      entrances == old(entrances) + NewEntrances(from, to, way) && LeftAlone(from, to)
    }

    twostate lemma ShrunkPair(from: Session, new to: Session)
      requires Shrunk() && old(allocated(to))
      ensures LeftAlone(from, to) && SubMap(groups, old(groups))
      ensures forall n :: n !in old(groups) ==> n !in groups
      ensures GroupsFull() ==> old(GroupsFull())
    {
      SubsetSize(groups.Keys, old(groups).Keys);
    }

    /** GPCM reports an accepted reservation; a profile has one session there, so equal profiles come with equal keys. */
    method ProcessGPResvOK(matchVersion: int, localPlayerCount: U32, resvOK: ResvOK, senderKey: nat, senderPid: U32, destKey: nat, destPid: U32,
                           senderRatingOK: bool, destRatingOK: bool, name: string) returns (ok: bool)
      requires Valid() && (senderPid == destPid ==> senderKey == destKey) && name != "" && name !in groups
      modifies this`sessions, this`bySearchID, this`groups, this`entrances, sessions.Values, logins.Values, groups.Values
      ensures Valid() && logins == old(logins)
      ensures senderKey !in old(sessions) || destKey !in old(sessions) ==> !ok && Unmoved()
      ensures senderKey in old(sessions) && destKey in old(sessions) ==>
                && var from, to := old(sessions)[senderKey], old(sessions)[destKey];
                && Paired(from, to, ThroughGPCM)
                && (ok ==> old(Identifiable(from, to, senderPid, destPid, senderRatingOK, destRatingOK)))
                && (old(Identifiable(from, to, senderPid, destPid, senderRatingOK, destRatingOK)) && !old(GroupsFull()) ==> ok)
                && (ok ==> Live(from) && Live(to) && Together(from, to) && from.group.groupID == resvOK.groupID)
      ensures Accounted()
    {
      hide Indexed, LoginsOK, GroupsOK, AllIndicesOK, HistoryOK, ValidWith, ClientFields, Identifiable, GroupsFull;
      if senderKey !in sessions || destKey !in sessions {
        return false;
      }
      Keyed();
      ok := AcceptPair(matchVersion, localPlayerCount, resvOK, sessions[senderKey], sessions[destKey], senderPid, destPid, senderRatingOK, destRatingOK, name);
    }

    method AcceptPair(matchVersion: int, localPlayerCount: U32, resvOK: ResvOK, from: Session, to: Session, senderPid: U32, destPid: U32,
                      senderRatingOK: bool, destRatingOK: bool, name: string) returns (ok: bool)
      requires Valid() && Live(from) && Live(to) && (senderPid == destPid ==> from == to) && name != "" && name !in groups
      modifies this`sessions, this`bySearchID, this`groups, this`entrances, sessions.Values, logins.Values, groups.Values
      ensures Valid() && logins == old(logins)
      ensures ok ==> old(Identifiable(from, to, senderPid, destPid, senderRatingOK, destRatingOK))
      ensures old(Identifiable(from, to, senderPid, destPid, senderRatingOK, destRatingOK)) && !old(GroupsFull()) ==> ok
      ensures ok ==> Live(from) && Live(to) && Together(from, to) && from.group.groupID == resvOK.groupID
      ensures Paired(from, to, ThroughGPCM)
      ensures Accounted()
    {
      hide ValidWith, FormatNat, LookupKey, GroupsFull, Identifiable, LeftAlone, Live, Comes, Accounted, Outstanding;
      ok := IdentifyPair(from, to, senderPid, destPid, senderRatingOK, destRatingOK);
      if ok {
        ok := Combine(matchVersion, localPlayerCount, resvOK, from, to, name);
        LeftAccounted(from, to);
      }
    }

    method IdentifyPair(from: Session, to: Session, senderPid: U32, destPid: U32, senderRatingOK: bool, destRatingOK: bool) returns (ok: bool)
      requires Valid() && Live(from) && Live(to) && (senderPid == destPid ==> from == to)
      modifies this`sessions, this`bySearchID, this`groups, sessions.Values, logins.Values, groups.Values
      ensures Valid() && logins == old(logins)
      ensures ok <==> old(Identifiable(from, to, senderPid, destPid, senderRatingOK, destRatingOK))
      ensures ok ==> Live(from) && Live(to) && from in old(sessions).Values && to in old(sessions).Values
      ensures ok ==> from.group == old(from.group) && to.group == old(to.group)
      ensures !ok ==> Accounted() && old(entrances) + NewEntrances(from, to, ThroughGPCM) == old(entrances)
      ensures LeftAlone(from, to) && SubMap(groups, old(groups)) && (GroupsFull() ==> old(GroupsFull()))
      ensures forall n :: n !in old(groups) ==> n !in groups
    {
      hide ValidWith, FormatNat, LookupKey, GroupsFull, Identifiable, Shrunk, LeftAlone, SubMap, Live, Comes, Accounted, NewEntrances;
      MemberOf(from);
      MemberOf(to);
      ok := Identify(from, to, senderPid, destPid, senderRatingOK, destRatingOK);
      ShrunkPair(from, to);
      if !ok {
        NoNewEntrances(from, to, ThroughGPCM);
        ShrunkAccounted();
      }
    }

    /** A session pair that GPCM vouches for is put into one group. */
    method Combine(matchVersion: int, localPlayerCount: U32, resvOK: ResvOK, from: Session, to: Session, name: string) returns (ok: bool)
      requires Valid() && Live(from) && Live(to) && name != "" && name !in groups
      modifies this`groups, this`entrances, from`data, from`group, from`groupName, to`data, to`group, to`groupName, groups.Values
      ensures Valid() && ok == !old(GroupsFull())
      ensures ok ==> Together(from, to) && from.group.groupID == resvOK.groupID
      ensures entrances == old(entrances) + NewEntrances(from, to, ThroughGPCM)
      ensures OldOrNew(groups)
    {
      hide ValidWith, LookupKey, JoinFields, GroupsFull, Live, Comes;
      MemberOf(from);
      MemberOf(to);
      ok := ProcessResvOK(matchVersion, localPlayerCount, resvOK, from, to, name, ThroughGPCM);
    }

    twostate lemma LeftAccounted(from: Session, new to: Session)
      requires old(allocated(to)) && LeftAlone(from, to) && OldOrNew(groups) && logins == old(logins)
      ensures Accounted()
    {
    }

    /** A TELL_ADDR through GPCM ties both sessions to their profiles; the second is tried even if the first displaced it. */
    method ProcessGPTellAddr(senderPid: U32, senderKey: nat, destPid: U32, destKey: nat, senderRatingOK: bool, destRatingOK: bool)
      requires Valid()
      modifies this`sessions, this`bySearchID, this`groups, sessions.Values, logins.Values, groups.Values
      ensures Valid() && logins == old(logins) && Shrunk()
      ensures senderKey in old(sessions) && destKey in old(sessions)
              && old(PidCheck(sessions[senderKey], FormatNat(senderPid), "", senderRatingOK)) != Refused ==>
                && old(sessions)[senderKey].Pid() == FormatNat(senderPid)
                && (senderPid != destPid && senderKey != destKey && old(PidCheck(sessions[destKey], FormatNat(destPid), "", destRatingOK)) != Refused ==>
                      old(sessions)[destKey].Pid() == FormatNat(destPid))
    {
      hide Indexed, LoginsOK, GroupsOK, AllIndicesOK, HistoryOK, ValidWith, ClientFields, PidCheck, OthersKept, Live, LookupKey, FormatNat, LoginFields;
      if senderKey in sessions && destKey in sessions {
        Keyed();
        var from, to := sessions[senderKey], sessions[destKey];
        PidsDiffer(senderPid, destPid);
        OtherRefused(to, FormatNat(destPid), destRatingOK);
        var ok := SetProfileID(from, FormatNat(senderPid), "", senderRatingOK, null);
        // A displaced session carries a profile already, so it would be left as it is.
        if ok && destKey in sessions {
          Keyed();
          ClaimBeside(to, FormatNat(destPid), destRatingOK, from);
        }
      }
    }

    /** A listed session with a profile keeps it while another, or the same, tries one. */
    method ClaimBeside(to: Session, newPID: string, ratingOK: bool, ghost from: Session)
      requires Valid() && Live(to) && Live(from) && from.Pid() != ""
      modifies this`sessions, this`bySearchID, this`groups, sessions.Values, logins.Values, groups.Values
      ensures Valid() && logins == old(logins) && Shrunk() && from.Pid() == old(from.Pid())
      ensures old(PidCheck(to, newPID, "", ratingOK)) != Refused ==> to.Pid() == newPID
    {
      hide Indexed, LoginsOK, GroupsOK, AllIndicesOK, HistoryOK, ValidWith, ClientFields, PidCheck, OthersKept, LookupKey, LoginFields, Shrunk;
      assert sessions[LookupKey(from.addr)] == from;
      KeepsPid(to, newPID, ratingOK);
      var _ := SetProfileID(to, newPID, "", ratingOK, null);
    }

    lemma OtherRefused(s: Session, newPID: string, ratingOK: bool)
      ensures s.Pid() != "" && s.Pid() != newPID ==> PidCheck(s, newPID, "", ratingOK) == Refused
    {
    }

    lemma KeepsPid(s: Session, newPID: string, ratingOK: bool)
      ensures s.Pid() != "" ==> !PidCheck(s, newPID, "", ratingOK).Claims?
    {
    }

    /** Whether a restricted player may send this reservation through GPCM. */
    method CheckGPReservationAllowed(senderKey: nat, senderPid: U32, destPid: U32, joinType: U8, ratingOK: bool) returns (answer: string)
      requires Valid()
      modifies this`sessions, this`bySearchID, this`groups, sessions.Values, logins.Values, groups.Values
      ensures Valid() && logins == old(logins) && Shrunk()
      // An answer is given unless one is not listed, the profile is refused, or the claim displaced the destination.
      ensures answer != "" <==>
                && senderKey in old(sessions) && destPid in logins && old(logins[destPid].session) != null
                && old(PidCheck(sessions[senderKey], FormatNat(senderPid), "", ratingOK)) != Refused
                && (senderPid == destPid ==> old(sessions)[senderKey] == old(logins[destPid].session))
      ensures answer != "" ==>
                && old(sessions)[senderKey].Pid() == FormatNat(senderPid)
                && answer == if MayReserve(old(sessions)[senderKey], old(logins[destPid].session), joinType) then "ok" else "restricted_join"
    {
      hide Indexed, LoginsOK, GroupsOK, AllIndicesOK, HistoryOK, ValidWith, ClientFields, PidVerdict, FormatNat, LookupKey, MayReserve, CheckReservationAllowed;
      if senderKey !in sessions || destPid !in logins || logins[destPid].session == null {
        return "";
      }
      Keyed();
      PidsDiffer(destPid, senderPid);
      SessionOfLogin(destPid);
      var from, to := sessions[senderKey], logins[destPid].session;
      VerdictOnOwn(from, senderPid, ratingOK);
      assert Live(to) && to.Pid() == FormatNat(destPid);
      var ok := SetProfileID(from, FormatNat(senderPid), "", ratingOK, null);
      if !ok || from.login == null {
        return "";
      }
      assert Live(from) && from.Pid() == FormatNat(senderPid);
      DestinationKept(from, to, senderPid, destPid);
      AnswerMeans(from, to, joinType);
      answer := CheckReservationAllowed(from, to, joinType);
    }

    /** The destination keeps its login unless the sender claimed it. */
    twostate lemma DestinationKept(new from: Session, new to: Session, new senderPid: U32, destPid: U32)
      requires old(allocated(from)) && old(allocated(to)) && Valid() && logins == old(logins)
      requires destPid in logins && old(logins[destPid].session) == to && old(to.login) == old(logins[destPid])
      requires old(Live(to)) && old(to.Pid()) == FormatNat(destPid) && (FormatNat(senderPid) == FormatNat(destPid) <==> senderPid == destPid)
      requires OthersKept(from) && Live(from) && from.login != null && from.Pid() == FormatNat(senderPid)
      requires forall k :: k in old(sessions) && k !in sessions ==> old(sessions)[k].login == null && old(sessions[k].Pid()) == FormatNat(senderPid)
      ensures to.login == null <==> senderPid == destPid && from != to
    {
      hide FormatNat, LookupKey, Indexed, GroupsOK, AllIndicesOK, HistoryOK;
      LinkOf(from, null);
      var key := LookupKey(to.addr);
      assert old(sessions)[key] == to;
      if key in sessions {
        if to != from {
          LinkOf(to, null);
          assert unchanged(to);
          PidsDiffer(senderPid, destPid);
          ParseOfFormat(from.login.profileID);
        }
      }
    }

    lemma SessionOfLogin(p: nat)
      requires Valid()
      ensures p in logins && logins[p].session != null ==>
                && LookupKey(logins[p].session.addr) in sessions && sessions[LookupKey(logins[p].session.addr)] == logins[p].session
                && logins[p].session.login == logins[p]
    {
    }

    /** A listed session that has the profile already is the one its login points at. */
    lemma VerdictOnOwn(s: Session, p: U32, ratingOK: bool)
      requires Valid() && Live(s)
      ensures PidCheck(s, FormatNat(p), "", ratingOK) == Already ==> p in logins && logins[p].session == s
      ensures s.Pid() != "" && s.Pid() != FormatNat(p) ==> PidCheck(s, FormatNat(p), "", ratingOK) == Refused
      ensures PidCheck(s, FormatNat(p), "", ratingOK).Claims? ==> s.Pid() == "" && PidCheck(s, FormatNat(p), "", ratingOK).profile == p
    {
      hide FormatNat, LookupKey, Indexed, GroupsOK, AllIndicesOK, HistoryOK;
      PidsDiffer(p, p);
      LinkOf(s, null);
      if s.login != null {
        PidsDiffer(s.login.profileID, p);
      }
    }

    /** The other lock sections that try a profile ID: a heartbeat's unknown number, and the header of a client message. */
    method ClaimProfile(key: nat, newPID: string, gpcmIP: string, ratingOK: bool, unknown: bool)
      requires Valid()
      modifies this`sessions, this`bySearchID, this`groups, sessions.Values, logins.Values, groups.Values
      ensures Valid() && logins == old(logins) && Shrunk()
      ensures key in old(sessions) && !(unknown && old(sessions[key].login) != null)
              && old(PidCheck(sessions[key], newPID, gpcmIP, ratingOK)) != Refused ==>
                key in sessions && sessions[key] == old(sessions)[key] && sessions[key].Pid() == newPID
    {
      hide Indexed, LoginsOK, GroupsOK, AllIndicesOK, HistoryOK, ValidWith, ClientFields, PidCheck, OthersKept;
      if key in sessions && !(unknown && sessions[key].login != null) {
        Keyed();
        var _ := SetProfileID(sessions[key], newPID, gpcmIP, ratingOK, null);
      }
    }

    lemma Keyed()
      requires Valid()
      ensures forall k :: k in sessions ==> LookupKey(sessions[k].addr) == k && Live(sessions[k])
    {
    }

    lemma PidsDiffer(p: U32, q: U32)
      requires Valid()
      ensures (FormatNat(p) == FormatNat(q) <==> p == q) && FormatNat(p) != "" && FormatNat(q) != ""
      ensures ProfileOf(FormatNat(p)) == Some(p) && ProfileOf(FormatNat(q)) == Some(q)
      ensures p in logins && logins[p].session != null ==> Live(logins[p].session) && logins[p].session.Pid() == FormatNat(p)
    {
      ParseOfFormat(p);
      ParseOfFormat(q);
      if p in logins && logins[p].session != null {
        LoginAt(p);
        LinkOf(logins[p].session, null);
      }
    }

    /** A session of profile p is not the one another profile's login points at. */
    lemma HoldsOnly(s: Session, p: U32, q: U32)
      requires Valid() && Live(s) && s.login != null && s.login.profileID == p
      ensures p != q && q in logins && logins[q].session != null ==> LookupKey(logins[q].session.addr) != LookupKey(s.addr)
    {
      if q in logins && logins[q].session != null {
        LoginAt(q);
      }
    }

    /** The statuses that take a player out of its group. */
    predicate LeavingStatus(status: string) {
      status in {"0", "1", "3", "4"}
    }

    /** A status report counts if the profile has a session or can claim the one at the reporting address. */
    predicate StatusAccepted(profileID: U32, senderKey: nat, ratingOK: bool)
      reads this, sessions.Values, logins.Values
    {
      && profileID in logins
      && (logins[profileID].session != null
          || (senderKey != 0 && senderKey in sessions
              && PidCheck(sessions[senderKey], FormatNat(profileID), "", ratingOK) != Refused))
    }

    /** The profile was given the session at this key. */
    twostate predicate Given(profileID: U32, senderKey: nat)
      reads this`logins, this`sessions, sessions.Values`data, logins.Values`session
    {
      && profileID in logins && senderKey in sessions && logins[profileID].session == sessions[senderKey]
      && sessions[senderKey].Pid() == FormatNat(profileID) && old(logins) == logins
    }

    method ClaimForStatus(profileID: U32, senderKey: nat, ratingOK: bool) returns (ok: bool)
      requires Valid() && profileID in logins
      modifies this`sessions, this`bySearchID, this`groups, sessions.Values, logins.Values, groups.Values
      ensures Valid() && logins == old(logins) && Shrunk() && sessions == old(sessions)
      ensures ok <==> old(StatusAccepted(profileID, senderKey, ratingOK))
      ensures SubMap(groups, old(groups))
      ensures !ok || old(logins[profileID].session) != null ==> Unmoved()
      ensures ok && old(logins[profileID].session) == null ==> Given(profileID, senderKey)
      ensures forall k :: k in sessions ==> sessions[k].group == old(sessions[k].group)
    {
      hide Indexed, LoginsOK, GroupsOK, AllIndicesOK, HistoryOK, ClientFields, ProfileOf, FormatNat, ValidWith;
      if logins[profileID].session != null {
        return true;
      }
      if senderKey == 0 || senderKey !in sessions {
        return false;
      }
      Keyed();
      PidsDiffer(profileID, profileID);
      ok := SetProfileID(sessions[senderKey], FormatNat(profileID), "", ratingOK, null);
      LoginsNamed();
    }

    lemma LoginsNamed()
      requires Valid()
      ensures forall p :: p in logins ==> logins[p].profileID == p
    {
    }

    /** A player that reports an idle or busy status leaves its group. */
    method ProcessGPStatusUpdate(profileID: U32, senderKey: nat, status: string, ratingOK: bool)
      requires Valid()
      modifies this`sessions, this`bySearchID, this`groups, sessions.Values, logins.Values, groups.Values
      ensures Valid() && logins == old(logins) && sessions == old(sessions)
      ensures !old(StatusAccepted(profileID, senderKey, ratingOK)) ==> Unmoved()
      ensures old(StatusAccepted(profileID, senderKey, ratingOK)) && old(logins[profileID].session) == null ==> Given(profileID, senderKey)
      ensures old(StatusAccepted(profileID, senderKey, ratingOK)) && LeavingStatus(status) && senderKey in sessions ==>
                sessions[senderKey].group == null
      ensures old(StatusAccepted(profileID, senderKey, ratingOK)) && !LeavingStatus(status) && old(logins[profileID].session) != null ==> Unmoved()
      ensures forall k :: k in sessions && (k != senderKey || !LeavingStatus(status)) ==> sessions[k].group == old(sessions[k].group)
      ensures Shrunk()
    {
      hide ClientFields, ProfileOf, FormatNat, ValidWith, PidCheck, OthersKept, StatusAccepted, LookupKey, Live, Shrunk, SubMap, Given, Unmoved;
      if profileID !in logins {
        NotNamed(profileID, senderKey, ratingOK);
        Unchanged();
        return;
      }
      GroupsListed();
      var ok := ClaimForStatus(profileID, senderKey, ratingOK);
      ghost var listed := groups;
      if ok && senderKey in sessions && (status == "0" || status == "1" || status == "3" || status == "4") {
        Keyed();
        StatusLeave(sessions[senderKey], senderKey);
      } else {
        SubMapSelf(groups);
      }
      FewerOnly(listed);
    }

    lemma GroupsListed()
      requires Valid()
      ensures forall k :: k in sessions && sessions[k].group != null ==> sessions[k].group in groups.Values
    {
      forall k | k in sessions && sessions[k].group != null
        ensures sessions[k].group in groups.Values
      {
        assert GroupLinked(sessions[k]);
      }
    }

    lemma SubMapSelf<K, V>(a: map<K, V>)
      ensures SubMap(a, a)
    {
    }

    twostate lemma Unchanged()
      requires unchanged(this) && unchanged(sessions.Values) && unchanged(logins.Values) && unchanged(groups.Values)
      ensures Unmoved() && Shrunk()
    {
    }

    twostate lemma FewerOnly(new listed: map<string, Group>)
      requires sessions == old(sessions) && logins == old(logins) && SubMap(groups, listed) && SubMap(listed, old(groups))
      requires forall k :: k in sessions ==> sessions[k].group == old(sessions[k].group) || sessions[k].group == null
      ensures Shrunk()
    {
    }

    lemma NotNamed(profileID: U32, senderKey: nat, ratingOK: bool)
      requires profileID !in logins
      ensures !StatusAccepted(profileID, senderKey, ratingOK)
    {
    }

    method StatusLeave(session: Session, ghost key: nat)
      requires Valid() && key in sessions && sessions[key] == session && LookupKey(session.addr) == key
      modifies this`groups, session`group, session`groupName
      modifies GroupOf(session)`players, GroupOf(session)`server, GroupOf(session)`matchType
      ensures Valid() && session.group == null && SubMap(groups, old(groups))
      ensures forall k :: k in sessions && k != key ==> sessions[k].group == old(sessions[k].group)
    {
      hide Indexed, LoginsOK, GroupsOK, AllIndicesOK, HistoryOK, LookupKey;
      KeysAgree();
      LeaveGroup(session, null);
    }

    /** The end of a heartbeat: look for a server if the group has none, else follow its match type. */
    method RefreshServer(group: Group)
      requires Valid() && group.groupName in groups && groups[group.groupName] == group
      modifies group`server, group`matchType
      ensures Valid()
      ensures group.FollowsServer()
      ensures group.server == null || Get(group.server.data, "dwc_mtype") == "" ==> group.matchType == old(group.matchType)
      ensures old(group.server) == null ==> group.IsServerChoice(group.server)
      ensures old(group.server) != null ==> group.server == old(group.server)
    {
      hide Indexed, LoginsOK, GroupsOK, AllIndicesOK, HistoryOK;
      if group.server == null {
        group.FindNewServer();
      } else {
        group.UpdateMatchType();
      }
      IndexKept();
      LoginsKept(null);
      GroupsKept();
      IndicesKept();
      HistoryKept();
    }

    // ---------- Client messages

    /** Restricted players may only join private matches. */
    function CheckReservationAllowed(sender: Session, destination: Session, joinType: U8): string
      reads sender, destination, if destination.group == null then {} else {destination.group}
    {
      if sender.login == null || destination.login == null then ""
      else if !sender.login.restricted && !destination.login.restricted then "ok"
      else if joinType != 2 && joinType != 3 then "restricted_join"
      else if destination.group == null then
        if Get(destination.data, "dwc_mtype") != "2" && Get(destination.data, "dwc_mtype") != "3" then "restricted_join" else "ok"
      else if destination.group.matchType != "private" then "restricted_join"
      else "ok"
    }

    /** Both players are logged in and unrestricted, or the match is a private one. */
    predicate MayReserve(sender: Session, destination: Session, joinType: U8)
      reads sender`login, destination`login, destination`group, destination`data, if destination.group == null then {} else {destination.group}
    {
      && sender.login != null && destination.login != null
      && ((!sender.login.restricted && !destination.login.restricted) || PrivateMatch(destination, joinType))
    }

    /** Join types 2 and 3 are private; the room, or a host without one, has to be so too. */
    predicate PrivateMatch(destination: Session, joinType: U8)
      reads destination`group, destination`data, if destination.group == null then {} else {destination.group}
    {
      && (joinType == 2 || joinType == 3)
      && if destination.group != null then destination.group.matchType == "private"
         else "dwc_mtype" in destination.data && (destination.data["dwc_mtype"] == "2" || destination.data["dwc_mtype"] == "3")
    }

    /** The three answers, and when each is given. */
    lemma AnswerMeans(sender: Session, destination: Session, joinType: U8)
      ensures var answer := CheckReservationAllowed(sender, destination, joinType);
              && (answer == "" <==> sender.login == null || destination.login == null)
              && (answer == "ok" <==> MayReserve(sender, destination, joinType))
              && (answer == "restricted_join" <==>
                    sender.login != null && destination.login != null && !MayReserve(sender, destination, joinType))
    {
    }

    /** The journal gained one entry, and reservation fields changed only as that entry says. */
    twostate lemma JournalStep(e: Entry)
      requires old(HistoryOK()) && journal == old(journal) + [e] && entrances == old(entrances)
      requires sessions == old(sessions)
      requires e.Reserved? ==> e.who.reservationID == e.host && e.who.reservation.reservation.Some? && KnownVersion(e.who.reservation.version)
      requires e.Cleared? ==> e.who.reservationID == 0 && e.who.reservation == old(e.who.reservation)
      requires forall k :: k in sessions && sessions[k] != e.who ==> sessions[k].reservation == old(sessions[k].reservation)
      requires forall k :: k in sessions && sessions[k] != e.who ==> sessions[k].reservationID == old(sessions[k].reservationID)
      requires forall k :: k in sessions ==> sessions[k].group == old(sessions[k].group)
      ensures HistoryOK()
    {
      hide Outstanding, AllJustified;
      JournalGrows(old(journal), e, old(entrances));
      forall k | k in sessions
        ensures ReservationOK(sessions[k]) && Admitted(sessions[k])
      {
        assert old(ReservationOK(sessions[k]) && Admitted(sessions[k]));
      }
    }

    method CountPacket(receiver: Session)
      requires Valid() && Live(receiver)
      modifies receiver`packetCount
      ensures Valid() && receiver.packetCount == (old(receiver.packetCount) + 1) % 0x1_0000_0000
    {
      hide Indexed, LoginsOK, GroupsOK, AllIndicesOK, HistoryOK;
      receiver.packetCount := (receiver.packetCount + 1) % 0x1_0000_0000;
      IndexKept();
      LoginsKept(null);
      GroupsKept();
      IndicesKept();
      HistoryKept();
    }

    method Reserve(sender: Session, receiver: Session, matchData: MatchCommandData)
      requires Valid() && Live(sender) && matchData.reservation.Some? && KnownVersion(matchData.version)
      modifies this`journal, sender`reservation, sender`reservationID
      ensures Valid() && journal == old(journal) + [Reserved(sender, receiver.searchID)]
      ensures sender.reservation == matchData && sender.reservationID == receiver.searchID
    {
      hide Indexed, LoginsOK, GroupsOK, AllIndicesOK, HistoryOK;
      sender.reservation := matchData;
      sender.reservationID := receiver.searchID;
      journal := journal + [Reserved(sender, receiver.searchID)];
      IndexKept();
      LoginsKept(null);
      GroupsKept();
      IndicesKept();
      JournalStep(Reserved(sender, receiver.searchID));
    }

    /** A denied or postponed reservation with this sender is dropped. */
    method ClearReservation(sender: Session, receiver: Session)
      requires Valid() && Live(receiver)
      modifies this`journal, receiver`reservationID
      ensures Valid() && journal == old(journal) + [Cleared(receiver, sender.searchID)] && receiver.reservationID == 0
    {
      hide Indexed, LoginsOK, GroupsOK, AllIndicesOK, HistoryOK;
      receiver.reservationID := 0;
      journal := journal + [Cleared(receiver, sender.searchID)];
      IndexKept();
      LoginsKept(null);
      GroupsKept();
      IndicesKept();
      JournalStep(Cleared(receiver, sender.searchID));
    }

    /** A reply is let through if it answers a standing reservation, or if both are in one group already. */
    predicate Answers(sender: Session, receiver: Session)
      reads sender, receiver
    {
      receiver.reservationID == sender.searchID && receiver.reservation.reservation.Some?
    }

    predicate Together(sender: Session, receiver: Session)
      reads sender, receiver
    {
      receiver.group != null && receiver.group == sender.group
    }

    /** A reply has an effect if it is let through and names the version of the reservation. */
    predicate Heard(sender: Session, receiver: Session, version: int)
      reads sender, receiver
    {
      (Answers(sender, receiver) || Together(sender, receiver)) && version == receiver.reservation.version
    }

    /**
     What a delivered message does to reservations and memberships.  A reservation is recorded
     exactly when the check passes, and cleared by a deny or wait that answers it.  RESV_OK ends
     with both in one group if it is heard, and nothing else moves anybody.  A receiver that
     changes groups had a reservation with the sender that still stood.
     */
    twostate predicate Delivered(sender: Session, receiver: Session, isNatneg: bool, cmd: U8, matchData: MatchCommandData)
      requires !isNatneg ==> HasPart(cmd, matchData)
      reads this, sender, receiver
    {
      && sessions == old(sessions)
      && journal == old(journal) +
           (if isNatneg then []
            else if cmd == RESERVATION then
              (if old(MayReserve(sender, receiver, matchData.reservation.value.matchType))
               then [Reserved(sender, old(receiver.searchID))] else [])
            else if (cmd == RESV_DENY || cmd == RESV_WAIT) && old(Answers(sender, receiver)) && matchData.version == old(receiver.reservation.version)
            then [Cleared(receiver, old(sender.searchID))]
            else [])
      && entrances == old(entrances) + NewEntrances(sender, receiver, Reply(old(sender.searchID), |old(journal)|))
      && (if !isNatneg && cmd == RESV_OK && old(Heard(sender, receiver, matchData.version)) && !old(GroupsFull())
          then Together(sender, receiver) && (old(sender.group) != null ==> sender.group == old(sender.group))
          else sender.group == old(sender.group) && receiver.group == old(receiver.group))
      && (receiver != sender && receiver.group != old(receiver.group) ==> old(Outstanding(journal, receiver, sender.searchID)))
    }

    /** RESV_OK, RESV_DENY and RESV_WAIT. */
    method HandleReply(sender: Session, receiver: Session, cmd: U8, matchData: MatchCommandData, name: string)
      requires Valid() && Live(sender) && Live(receiver) && name != "" && name !in groups
      requires KnownVersion(matchData.version) && HasPart(cmd, matchData) && (cmd == RESV_OK || cmd == RESV_DENY || cmd == RESV_WAIT)
      modifies this`groups, this`journal, this`entrances, sender`data, sender`group, sender`groupName
      modifies receiver`data, receiver`group, receiver`groupName, receiver`reservationID
      modifies if sender.group != null then {sender.group} else {}
      modifies if receiver.group != null then {receiver.group} else {}
      ensures Valid() && Delivered(sender, receiver, false, cmd, matchData)
      ensures !old(Answers(sender, receiver)) && !old(Together(sender, receiver)) ==> unchanged(this) && unchanged(sender) && unchanged(receiver)
      ensures cmd != RESV_OK && old(Answers(sender, receiver)) && matchData.version == old(receiver.reservation.version) ==>
                receiver.reservationID == 0
      ensures Accounted()
    {
      hide Indexed, LoginsOK, GroupsOK, AllIndicesOK, HistoryOK, ValidWith, Outstanding, GroupsFull;
      if receiver.reservationID != sender.searchID || receiver.reservation.reservation.None? {
        if receiver.group == null || receiver.group != sender.group {
          return;
        }
      }
      if receiver.reservation.version != matchData.version {
        return;
      }
      StandingReservation(sender, receiver);
      if cmd == RESV_OK {
        Accept(sender, receiver, matchData, name);
      } else if receiver.reservationID == sender.searchID {
        ClearReservation(sender, receiver);
      }
    }

    /** A known version means a recorded reservation; a matching one is still outstanding. */
    lemma StandingReservation(sender: Session, receiver: Session)
      requires Valid() && Live(receiver) && Live(sender)
      ensures KnownVersion(receiver.reservation.version) ==> receiver.reservation.reservation.Some?
      ensures receiver.reservationID == sender.searchID ==> Outstanding(journal, receiver, sender.searchID)
      ensures receiver.reservationID == sender.searchID && KnownVersion(receiver.reservation.version) ==> Answers(sender, receiver)
    {
      assert ReservationOK(receiver) by { assert sessions[LookupKey(receiver.addr)] == receiver; }
      assert sender.searchID != 0 by { assert sessions[LookupKey(sender.addr)] == sender; }
    }

    method Accept(sender: Session, receiver: Session, matchData: MatchCommandData, name: string)
      requires Valid() && Live(sender) && Live(receiver) && name != "" && name !in groups && matchData.resvOK.Some?
      requires Answers(sender, receiver) || Together(sender, receiver)
      requires receiver.reservation.reservation.Some?
      requires Answers(sender, receiver) ==> Outstanding(journal, receiver, sender.searchID)
      modifies this`groups, this`entrances, sender`data, sender`group, sender`groupName
      modifies receiver`data, receiver`group, receiver`groupName
      modifies if sender.group != null then {sender.group} else {}
      modifies if receiver.group != null then {receiver.group} else {}
      ensures Valid()
      ensures if !old(GroupsFull()) then Together(sender, receiver) && (old(sender.group) != null ==> sender.group == old(sender.group))
              else sender.group == old(sender.group) && receiver.group == old(receiver.group)
      ensures receiver != sender && receiver.group != old(receiver.group) ==> old(Answers(sender, receiver))
      ensures entrances == old(entrances) + NewEntrances(sender, receiver, Reply(sender.searchID, |journal|))
      ensures Accounted()
    {
      hide Indexed, LoginsOK, GroupsOK, AllIndicesOK, HistoryOK, ValidWith, Outstanding, GroupsFull;
      ghost var way := Reply(sender.searchID, |journal|);
      assert journal[..|journal|] == journal;
      var _ := ProcessResvOK(matchData.version, receiver.reservation.reservation.value.localPlayerCount, matchData.resvOK.value, sender, receiver, name, way);
    }

    /** The message section of the source: count the packet, then act on the match command. */
    method ProcessClientMessage(sender: Session, receiver: Session, isNatneg: bool, cmd: U8, matchData: MatchCommandData, name: string)
      requires Valid() && Live(sender) && Live(receiver) && name != "" && name !in groups
      requires !isNatneg ==> KnownVersion(matchData.version) && HasPart(cmd, matchData)
      modifies this`groups, this`journal, this`entrances, sender, receiver
      modifies if sender.group != null then {sender.group} else {}
      modifies if receiver.group != null then {receiver.group} else {}
      ensures Valid() && Delivered(sender, receiver, isNatneg, cmd, matchData)
      ensures receiver.packetCount == (old(receiver.packetCount) + 1) % 0x1_0000_0000
      ensures !isNatneg && cmd == RESERVATION && journal != old(journal) ==>
                sender.reservation == matchData && sender.reservationID == old(receiver.searchID)
      ensures !isNatneg && cmd == RESERVATION && journal == old(journal) ==>
                sender.reservation == old(sender.reservation) && sender.reservationID == old(sender.reservationID)
      ensures isNatneg || cmd !in {RESERVATION, RESV_OK, RESV_DENY, RESV_WAIT} ==> groups == old(groups)
      ensures Accounted()
    {
      hide Indexed, LoginsOK, GroupsOK, AllIndicesOK, HistoryOK, ValidWith, Outstanding, GroupsFull;
      CountPacket(receiver);
      if isNatneg {
        return;
      }
      if cmd == RESERVATION {
        AnswerMeans(sender, receiver, matchData.reservation.value.matchType);
        var resvError := CheckReservationAllowed(sender, receiver, matchData.reservation.value.matchType);
        if resvError != "ok" {
          return;
        }
        Reserve(sender, receiver, matchData);
      } else if cmd == RESV_OK || cmd == RESV_DENY || cmd == RESV_WAIT {
        HandleReply(sender, receiver, cmd, matchData, name);
      }
    }

    // ---------- Whole runs

    /** The parts of SendClientMessage before the message section let these through. */
    predicate Deliverable(r: Request)
      requires r.ClientMessage?
      reads this
    {
      && r.senderKey in sessions && r.receiverKey in sessions && r.name != "" && r.name !in groups
      && (!r.isNatneg ==> KnownVersion(r.matchData.version) && HasPart(r.cmd, r.matchData))
    }

    /** How the entrances of this step came about. */
    twostate predicate EnteredBy(r: Request)
      reads this`entrances
    {
      && old(entrances) <= entrances
      && forall e :: e in entrances && e !in old(entrances) ==>
           && !e.way.Restored?
           && (e.way.ThroughGPCM? ==> r.GPResvOK?)
           && (e.way.Reply? ==> r.ClientMessage? && r.cmd == RESV_OK)
           && (e.way.Founder? ==> r.GPResvOK? || (r.ClientMessage? && r.cmd == RESV_OK))
    }

    /** The result of a request that writes no journal and puts nobody into a group. */
    twostate predicate Served(r: Request)
      reads *
    {
      match r
      case Heartbeat(addr, sessionID, payload, _, ratingOK) =>
        var key := LookupKey(addr);
        old(|bySearchID|) < MAX_SEARCH_ID && (forall k :: k in payload ==> k != "" && !ServerField(k))
        && ("dwc_pid" in payload ==> old(PidVerdict(PidAt(key), payload["dwc_pid"], "", ratingOK)) != Refused) ==>
          key in sessions && sessions[key].sessionID == sessionID && ClientFields(sessions[key].data) == ClientFields(payload)
      case Close(key) => sessions == old(sessions) - {key}
      case LogIn(p, name, friendKeyGame, publicIP, deviceAuthenticated, restricted, openHost) =>
        old(p !in logins || logins[p].session == null) ==>
          p in logins && logins[p].Record() == LoginRecord(p, name, friendKeyGame, publicIP, deviceAuthenticated, restricted, openHost)
      case LogOut(p) => logins == old(logins) - {p}
      case Expire(now) => forall k :: k in sessions <==> k in old(sessions) && old(sessions[k].lastKeepAlive) >= now - 3600
      case GPStatus(p, key, status, ratingOK) =>
        old(StatusAccepted(p, key, ratingOK)) && LeavingStatus(status) && key in sessions ==> sessions[key].group == null
      case ProfileClaim(key, newPID, gpcmIP, ratingOK, unknown) =>
        key in old(sessions) && !(unknown && old(sessions[key].login) != null)
        && old(PidCheck(sessions[key], newPID, gpcmIP, ratingOK)) != Refused ==>
          key in sessions && sessions[key] == old(sessions)[key] && sessions[key].Pid() == newPID
      case ServerCheck(name) =>
        name in old(groups) ==> name in groups && groups[name].FollowsServer() && (old(groups[name].server) == null ==> groups[name].IsServerChoice(groups[name].server))
      case Packet(key, sessionID, challengeMet, keepAlive, now) =>
        key in old(sessions) ==>
          && key in sessions && sessions[key].sessionID == sessionID && sessions[key].authenticated == (challengeMet || old(sessions[key].authenticated))
          && sessions[key].lastKeepAlive == if keepAlive then now else old(sessions[key].lastKeepAlive)
      case GPReservation(key, senderPid, destPid, _, ratingOK) =>
        key in old(sessions) && destPid in old(logins) && old(logins[destPid].session) != null
        && old(PidCheck(sessions[key], FormatNat(senderPid), "", ratingOK)) != Refused
        && (senderPid == destPid ==> old(sessions)[key] == old(logins[destPid].session)) ==>
          old(sessions)[key].Pid() == FormatNat(senderPid)
      case GPTellAddr(senderPid, key, destPid, destKey, ratingOK, destRatingOK) =>
        key in old(sessions) && destKey in old(sessions) && old(PidCheck(sessions[key], FormatNat(senderPid), "", ratingOK)) != Refused ==>
          && old(sessions)[key].Pid() == FormatNat(senderPid)
          && (senderPid != destPid && key != destKey && old(PidCheck(sessions[destKey], FormatNat(destPid), "", destRatingOK)) != Refused ==>
                old(sessions)[destKey].Pid() == FormatNat(destPid))
      case DeviceAuth(p) => p in logins ==> logins[p].deviceAuthenticated
      case OpenHost(p, openHost) => p in logins ==> logins[p].openHost == openHost
      case _ => true
    }

    /** One request of a run; requests whose caller-side conditions do not hold are not made. */
    method Step(r: Request)
      requires Valid()
      modifies this, sessions.Values, logins.Values, groups.Values
      ensures Valid() && Accounted()
      // Only client messages write the journal, and what they write is exactly what `Delivered` says.
      ensures !r.ClientMessage? ==> journal == old(journal)
      ensures r.ClientMessage? && old(Deliverable(r)) ==>
                Delivered(old(sessions)[r.senderKey], old(sessions)[r.receiverKey], r.isNatneg, r.cmd, r.matchData)
      ensures r.ClientMessage? && !old(Deliverable(r)) ==> Unmoved()
      // Sessions enter groups only by accepted reservations, and every entrance is recorded.
      ensures !r.ClientMessage? && !r.GPResvOK? ==> NoneEntered()
      ensures r.ClientMessage? && old(Deliverable(r)) ==>
                forall k :: k in sessions && k != r.senderKey && k != r.receiverKey ==> sessions[k].group == old(sessions[k].group)
      ensures r.GPResvOK? ==>
                if r.senderKey in old(sessions) && r.destKey in old(sessions)
                then Paired(old(sessions)[r.senderKey], old(sessions)[r.destKey], ThroughGPCM)
                else Unmoved()
      ensures EnteredBy(r)
      // Every other request does what its own operation promises.
      ensures Served(r)
    {
      hide ValidWith, Shrunk, Unmoved, Delivered, Paired, Identifiable, GroupsFull, Live, Together, NoneEntered, Accounted, EnteredBy;
      match r
      case ClientMessage(senderKey, receiverKey, isNatneg, cmd, matchData, name) =>
        if && senderKey in sessions && receiverKey in sessions && name != "" && name !in groups
           && (!isNatneg ==> KnownVersion(matchData.version) && HasPart(cmd, matchData)) {
          Keyed();
          StepMessage(sessions[senderKey], sessions[receiverKey], isNatneg, cmd, matchData, name);
          DeliveredEntered(r, old(sessions)[senderKey], old(sessions)[receiverKey]);
        } else {
          Idle(r);
        }
      case GPResvOK(matchVersion, localPlayerCount, resvOK, senderKey, senderPid, destKey, destPid, senderOK, destOK, name) =>
        if (senderPid == destPid ==> senderKey == destKey) && name != "" && name !in groups {
          var _ := ProcessGPResvOK(matchVersion, localPlayerCount, resvOK, senderKey, senderPid, destKey, destPid, senderOK, destOK, name);
        } else {
          Idle(r);
        }
        if senderKey in old(sessions) && destKey in old(sessions) {
          PairedEntered(r, old(sessions)[senderKey], old(sessions)[destKey]);
        } else {
          QuietEntered(r);
        }
      case _ =>
        QuietStep(r);
        assert EnteredBy(r) by { QuietEntered(r); }
    }

    twostate lemma Idle(r: Request)
      requires unchanged(this) && unchanged(sessions.Values) && unchanged(logins.Values) && unchanged(groups.Values)
      ensures Unmoved() && Accounted() && NoneEntered() && EnteredBy(r)
      ensures r.GPResvOK? && r.senderKey in sessions && r.destKey in sessions ==>
                Paired(sessions[r.senderKey], sessions[r.destKey], ThroughGPCM)
    {
      if r.GPResvOK? && r.senderKey in sessions && r.destKey in sessions {
        NoNewEntrances(sessions[r.senderKey], sessions[r.destKey], ThroughGPCM);
      }
    }

    twostate lemma QuietEntered(r: Request)
      requires entrances == old(entrances) || Unmoved()
      ensures EnteredBy(r)
    {
    }

    twostate lemma DeliveredEntered(r: Request, new sender: Session, new receiver: Session)
      requires r.ClientMessage? && (!r.isNatneg ==> HasPart(r.cmd, r.matchData)) && old(allocated(sender) && allocated(receiver))
      requires Delivered(sender, receiver, r.isNatneg, r.cmd, r.matchData)
      ensures EnteredBy(r)
    {
      hide Outstanding, CheckReservationAllowed, Answers, GroupsFull;
    }

    twostate lemma PairedEntered(r: Request, new from: Session, new to: Session)
      requires r.GPResvOK? && old(allocated(from) && allocated(to)) && Paired(from, to, ThroughGPCM)
      ensures EnteredBy(r)
    {
    }

    /** The requests that put nobody into a group. */
    method QuietStep(r: Request)
      requires Valid() && !r.ClientMessage? && !r.GPResvOK?
      modifies this`sessions, this`bySearchID, this`logins, this`groups, sessions.Values, logins.Values, groups.Values
      ensures Valid() && Accounted() && NoneEntered() && Served(r)
    {
      hide ValidWith, Shrunk, Unmoved, Accounted, NoneEntered, Given, StatusAccepted, PidVerdict, PidCheck, PidAt, LeavingStatus, ClientFields, LookupKey, FormatNat, MayReserve;
      match r
      case Heartbeat(addr, sessionID, payload, now, ratingOK) =>
        StepHeartbeat(addr, sessionID, payload, now, ratingOK);
      case Close(key) =>
        RemoveListed(key);
        ShrunkAccounted();
      case LogIn(profileID, inGameName, friendKeyGame, publicIP, deviceAuthenticated, restricted, openHost) =>
        if profileID !in logins || logins[profileID].session == null {
          Login(profileID, inGameName, friendKeyGame, publicIP, deviceAuthenticated, restricted, openHost);
          StayedOut();
        } else {
          Idle(r);
        }
      case LogOut(profileID) =>
        StepLogout(profileID);
        ShrunkAccounted();
      case Expire(now) =>
        ExpireSessions(now);
        ShrunkAccounted();
      case GPStatus(profileID, senderKey, status, ratingOK) =>
        ProcessGPStatusUpdate(profileID, senderKey, status, ratingOK);
        ShrunkAccounted();
      case GPTellAddr(senderPid, senderKey, destPid, destKey, senderOK, destOK) =>
        ProcessGPTellAddr(senderPid, senderKey, destPid, destKey, senderOK, destOK);
        ShrunkAccounted();
      case GPReservation(senderKey, senderPid, destPid, joinType, ratingOK) =>
        var _ := CheckGPReservationAllowed(senderKey, senderPid, destPid, joinType, ratingOK);
        ShrunkAccounted();
      case ProfileClaim(key, newPID, gpcmIP, ratingOK, unknown) =>
        ClaimProfile(key, newPID, gpcmIP, ratingOK, unknown);
        ShrunkAccounted();
      case ServerCheck(_) => FieldStep(r);
      case Packet(_, _, _, _, _) => FieldStep(r);
      case DeviceAuth(_) => FieldStep(r);
      case OpenHost(_, _) => FieldStep(r);
    }

    /** The requests that leave the tables themselves alone. */
    method FieldStep(r: Request)
      requires Valid() && (r.ServerCheck? || r.Packet? || r.DeviceAuth? || r.OpenHost?)
      modifies sessions.Values, logins.Values, groups.Values
      ensures Valid() && Accounted() && NoneEntered() && Served(r)
    {
      hide ValidWith;
      match r
      case ServerCheck(name) =>
        if name in groups {
          NamedGroup(name);
          RefreshServer(groups[name]);
        }
      case Packet(key, sessionID, challengeMet, keepAlive, now) =>
        ProcessPacket(key, sessionID, challengeMet, keepAlive, now);
      case DeviceAuth(profileID) =>
        HolderIsListed(profileID);
        SetDeviceAuthenticated(profileID);
      case OpenHost(profileID, openHost) =>
        SetLoginOpenHost(profileID, openHost);
    }

    lemma HolderIsListed(profileID: nat)
      requires Valid()
      ensures profileID in logins && logins[profileID].session != null ==> logins[profileID].session in sessions.Values
    {
      if profileID in logins && logins[profileID].session != null {
        LoginAt(profileID);
      }
    }

    twostate lemma StayedOut()
      requires sessions == old(sessions)
      requires forall k :: k in sessions ==> sessions[k].group == old(sessions[k].group)
      ensures NoneEntered()
    {
    }

    method StepHeartbeat(addr: Addr, sessionID: U32, payload: map<string, string>, now: int, ratingOK: bool)
      requires Valid()
      modifies this`sessions, this`bySearchID, this`groups, sessions.Values, logins.Values, groups.Values
      ensures Valid() && Accounted() && NoneEntered()
      ensures var key := LookupKey(addr);
              old(|bySearchID|) < MAX_SEARCH_ID && (forall k :: k in payload ==> k != "" && !ServerField(k))
              && ("dwc_pid" in payload ==> old(PidVerdict(PidAt(key), payload["dwc_pid"], "", ratingOK)) != Refused) ==>
                key in sessions && sessions[key].sessionID == sessionID && ClientFields(sessions[key].data) == ClientFields(payload)
    {
      hide ValidWith, PidVerdict, PidAt, ClientFields, LookupKey, OnlyHolderLost;
      if |bySearchID| < MAX_SEARCH_ID && (forall k :: k in payload ==> k != "" && !ServerField(k)) {
        var _ := SetSessionData(addr, sessionID, payload, now, ratingOK);
      }
    }

    lemma NamedGroup(name: string)
      requires Valid() && name in groups
      ensures groups[name].groupName == name
    {
    }

    method StepLogout(profileID: U32)
      requires Valid()
      modifies this`logins, this`sessions, this`bySearchID, this`groups, sessions.Values, logins.Values, groups.Values
      ensures Valid() && logins == old(logins) - {profileID}
      ensures Shrunk()
    {
      hide Indexed, LoginsOK, GroupsOK, AllIndicesOK, HistoryOK;
      if profileID in logins && logins[profileID].session != null {
        LoginAt(profileID);
        TouchedListed(logins[profileID].session, null);
      }
      Logout(profileID);
    }

    method StepMessage(sender: Session, receiver: Session, isNatneg: bool, cmd: U8, matchData: MatchCommandData, name: string)
      requires Valid() && Live(sender) && Live(receiver) && name != "" && name !in groups
      requires !isNatneg ==> KnownVersion(matchData.version) && HasPart(cmd, matchData)
      modifies this`groups, this`journal, this`entrances, sessions.Values, groups.Values
      ensures Valid() && Accounted() && Delivered(sender, receiver, isNatneg, cmd, matchData)
      ensures forall k :: k in sessions && sessions[k] != sender && sessions[k] != receiver ==> sessions[k].group == old(sessions[k].group)
    {
      hide Indexed, LoginsOK, GroupsOK, AllIndicesOK, HistoryOK, ValidWith, Delivered;
      MemberOf(sender);
      MemberOf(receiver);
      ProcessClientMessage(sender, receiver, isNatneg, cmd, matchData, name);
    }

    /** A listed group's member came in on record, and an answer that brought it in was to a standing reservation. */
    ghost predicate CameIn(s: Session, g: Group)
      reads this`journal, this`entrances
    {
      exists e :: e in entrances && e.who == s && e.into == g && !e.way.Restored? && Justified(journal, s, e.way)
    }

    lemma MembersCameIn()
      requires Valid() && forall e :: e in entrances ==> !e.way.Restored?
      ensures forall n, s :: n in groups && s in groups[n].players ==> CameIn(s, groups[n])
    {
      hide Justified;
      forall n, s | n in groups && s in groups[n].players
        ensures CameIn(s, groups[n])
      {
        assert GroupOK(groups[n]);
        assert Admitted(s) by { assert sessions[LookupKey(s.addr)] == s; }
        var e :| e in entrances && e.who == s && e.into == s.group;
        assert Justified(journal, e.who, e.way);
      }
    }

    /**
     Every run from the empty tables ends in a valid state, and every member of every group
     founded it, was put there by GPCM, or was let in while its reservation stood.
     */
    static method Run(requests: seq<Request>) returns (t: Tables)
      ensures t.Valid()
      ensures forall n, s :: n in t.groups && s in t.groups[n].players ==> t.CameIn(s, t.groups[n])
    {
      hide Tables.ValidWith, Tables.Delivered, Tables.Paired, Tables.Unmoved, Tables.CameIn, Tables.Deliverable;
      t := new Tables();
      for i := 0 to |requests|
        invariant t.Valid() && fresh(t)
        invariant forall k :: k in t.sessions ==> fresh(t.sessions[k])
        invariant forall p :: p in t.logins ==> fresh(t.logins[p])
        invariant forall n :: n in t.groups ==> fresh(t.groups[n])
        invariant forall e :: e in t.entrances ==> !e.way.Restored?
      {
        t.Step(requests[i]);
      }
      t.MembersCameIn();
    }

    // ---------- What validity means to a caller

    /** No two listed sessions share an address, a search ID, a login or a profile ID. */
    lemma SessionsDistinct(s: Session, u: Session)
      requires Valid() && Live(s) && Live(u) && s != u
      ensures s.addr != u.addr && s.searchID != u.searchID
      ensures s.login != null ==> s.login != u.login
      ensures s.Pid() != "" ==> s.Pid() != u.Pid()
    {
      assert sessions[LookupKey(s.addr)] == s && sessions[LookupKey(u.addr)] == u;
      LinkOf(s, null);
      LinkOf(u, null);
      if s.login != null && u.login != null {
        FormatInjective(s.login.profileID, u.login.profileID);
      }
    }

    /** A listed session is a member of exactly the group it points at, if any. */
    lemma OneGroupPerSession(s: Session, n: string)
      requires Valid() && Live(s) && n in groups
      ensures s in groups[n].players <==> s.group == groups[n]
      ensures s.group == null <==> s.groupName == ""
    {
      MemberOf(s);
      assert GroupLinked(s) by { assert sessions[LookupKey(s.addr)] == s; }
      assert GroupOK(groups[n]);
      assert groups[n].groupName == n;
    }
  }

  /** Random search IDs are drawn from 1 to 2^24 - 1. */
  const MAX_SEARCH_ID: nat := 0xff_ffff

  /** The IDs from 1 to n. */
  ghost function IDs(n: nat): (s: set<nat>)
    ensures |s| == n && forall i :: i in s <==> 1 <= i <= n
  {
    if n == 0 then {} else IDs(n - 1) + {n}
  }

  lemma {:induction false} SubsetSize<T>(a: set<T>, b: set<T>)
    requires a <= b
    ensures |a| <= |b|
  {
    if a != {} {
      var x :| x in a;
      SubsetSize(a - {x}, b - {x});
    }
  }

  lemma FreeSearchID(used: set<nat>)
    requires |used| < MAX_SEARCH_ID
    ensures exists i: nat :: 1 <= i <= MAX_SEARCH_ID && i !in used
  {
    var n := MAX_SEARCH_ID;
    if IDs(n) <= used {
      SubsetSize(IDs(n), used);
    }
    var i :| i in IDs(n) && i !in used;
  }
}
