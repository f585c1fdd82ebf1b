/**
 qr2/: saving the tables before a backend reload and loading them again.  The files keep
 the exported fields and drop every pointer, which loading rebuilds from the data fields.
 */
module Qr2State {
  import opened MatchCommand
  import opened Decimal
  import opened Qr2Objects
  import opened Qr2

  datatype Saved = Saved(sessions: map<nat, SessionRecord>, logins: map<nat, LoginRecord>, groups: map<string, GroupRecord>)

  function Save(t: Tables): Saved
    reads t, t.sessions.Values, t.logins.Values, t.groups.Values
  {
    Saved(map k | k in t.sessions :: t.sessions[k].Record(),
          map p | p in t.logins :: t.logins[p].Record(),
          map n | n in t.groups :: t.groups[n].Record())
  }

  function PidOf(r: SessionRecord): string {
    Get(r.data, "dwc_pid")
  }

  function IndexOf(r: SessionRecord): Option<int> {
    ParseInt(Get(r.data, "+joinindex"))
  }

  /** The saved login a session's data names. */
  function OwnerOf(r: SessionRecord, logins: set<nat>): (p: Option<nat>)
    ensures p.Some? ==> p.value in logins
  {
    var p := ParseUint32(PidOf(r));
    if PidOf(r) == "" || p.None? || p.value !in logins then None else Some(p.value)
  }

  // ---------- Which files load into a valid state

  ghost predicate SessionLoadable(f: Saved, k: nat)
    requires k in f.sessions
  {
    var r := f.sessions[k];
    && LookupKey(r.addr) == k && r.searchID != 0
    && (PidOf(r) == "" || exists p :: p in f.logins && PidOf(r) == FormatNat(p))
    && (r.groupName != "" ==>
          && r.groupName in f.groups && IndexOf(r).Some?
          && 0 <= IndexOf(r).value <= f.groups[r.groupName].lastJoinIndex)
    && (r.reservation.reservation.None? ==> r.reservation.version == 0 && r.reservationID == 0)
    && (r.reservation.reservation.Some? ==> KnownVersion(r.reservation.version))
  }

  /** Two saved sessions clash when a key that must be unique appears in both. */
  predicate Clash(r: SessionRecord, q: SessionRecord) {
    || r.searchID == q.searchID
    || (PidOf(r) != "" && PidOf(r) == PidOf(q))
    || (r.groupName != "" && r.groupName == q.groupName && IndexOf(r) == IndexOf(q))
  }

  ghost predicate Loadable(f: Saved) {
    && (forall k :: k in f.sessions ==> SessionLoadable(f, k))
    && (forall k, j :: k in f.sessions && j in f.sessions && k != j ==> !Clash(f.sessions[k], f.sessions[j]))
    && (forall p :: p in f.logins ==> f.logins[p].profileID == p)
    && (forall n :: n in f.groups ==> n != "" && f.groups[n].groupName == n)
    && (forall n :: n in f.groups ==> exists k :: k in f.sessions && f.sessions[k].groupName == n)
  }

  // ---------- What loading builds, whatever the files hold

  ghost predicate RestoredSession(t: Tables, f: Saved, k: nat)
    requires k in t.sessions && k in f.sessions
    reads t`sessions, t`bySearchID, t.sessions.Values
  {
    && t.sessions[k].Record() == f.sessions[k]
    && (f.sessions[k].searchID != 0 ==> f.sessions[k].searchID in t.bySearchID)
    && forall j :: j in t.sessions && j != k ==> t.sessions[j] != t.sessions[k]
  }

  ghost predicate SessionsLoaded(t: Tables, f: Saved)
    reads t`sessions, t`bySearchID, t.sessions.Values, t.bySearchID.Values
  {
    && t.sessions.Keys == f.sessions.Keys
    && (forall k :: k in t.sessions ==> RestoredSession(t, f, k))
    && (forall i :: i in t.bySearchID ==> i != 0 && t.bySearchID[i].searchID == i && t.bySearchID[i] in t.sessions.Values)
  }

  ghost predicate LoginsRestored(t: Tables, f: Saved)
    reads t`logins, t.logins.Values
  {
    && t.logins.Keys == f.logins.Keys
    && (forall p :: p in t.logins ==> t.logins[p].Record() == f.logins[p])
    && (forall p, q :: p in t.logins && q in t.logins && p != q ==> t.logins[p] != t.logins[q])
  }

  ghost predicate OwnerLinked(t: Tables, f: Saved, k: nat, left: set<nat>)
    requires k in t.sessions && k in f.sessions
    reads t`sessions, t`logins, t.sessions.Values, t.logins.Values
  {
    var owner := OwnerOf(f.sessions[k], t.logins.Keys);
    if k in left || owner.None? then t.sessions[k].login == null
    else t.sessions[k].login == t.logins[owner.value] && t.logins[owner.value].session != null
  }

  ghost predicate SessionLinked(t: Tables, p: nat)
    requires p in t.logins
    reads t`sessions, t`logins, t.sessions.Values, t.logins.Values
  {
    t.logins[p].session != null ==> t.logins[p].session in t.sessions.Values && t.logins[p].session.login == t.logins[p]
  }

  /** Sessions still to be visited are in `left`. */
  ghost predicate LoginsLoaded(t: Tables, f: Saved, left: set<nat>)
    requires t.sessions.Keys == f.sessions.Keys
    reads t`sessions, t`logins, t.sessions.Values, t.logins.Values
  {
    && LoginsRestored(t, f)
    && (forall k :: k in t.sessions ==> OwnerLinked(t, f, k, left))
    && (forall p :: p in t.logins ==> SessionLinked(t, p))
  }

  ghost predicate GroupsRestored(t: Tables, f: Saved)
    reads t`groups, t.groups.Values
  {
    && t.groups.Keys == f.groups.Keys
    && (forall n :: n in t.groups ==> t.groups[n].Record().(matchType := "") == f.groups[n].(matchType := ""))
    && (forall m, n :: m in t.groups && n in t.groups && m != n ==> t.groups[m] != t.groups[n])
  }

  /** The listed group a saved session names. */
  predicate Names(r: SessionRecord, n: string) {
    n != "" && r.groupName == n
  }

  ghost predicate Seated(t: Tables, f: Saved, k: nat, left: set<nat>)
    requires k in t.sessions && k in f.sessions
    reads t`sessions, t`groups, t.sessions.Values, t.groups.Values
  {
    var r := f.sessions[k];
    && (forall n :: n in t.groups ==> (t.sessions[k] in t.groups[n].players <==> k !in left && Names(r, n)))
    && t.sessions[k].group == if k in left || !Names(r, r.groupName) || r.groupName !in t.groups then null else t.groups[r.groupName]
  }

  /** Sessions still to be visited are in `left`. */
  ghost predicate GroupsLoaded(t: Tables, f: Saved, left: set<nat>)
    requires t.sessions.Keys == f.sessions.Keys
    reads t`sessions, t`groups, t.sessions.Values, t.groups.Values
  {
    && GroupsRestored(t, f)
    && (forall k :: k in t.sessions ==> Seated(t, f, k, left))
    && (forall n :: n in t.groups ==> t.groups[n].players <= t.sessions.Values)
  }

  ghost predicate ServerChosen(g: Group, r: GroupRecord)
    reads g, g.players
  {
    && g.IsServerChoice(g.server)
    && (g.matchType == r.matchType || (g.server != null && g.matchType == Get(g.server.data, "dwc_mtype")))
  }

  /** Groups still to be visited are in `left`. */
  ghost predicate ServersChosen(t: Tables, f: Saved, left: set<string>)
    reads t`groups, t.groups.Values, set g, s | g in t.groups.Values && s in g.players :: s
  {
    && t.groups.Keys == f.groups.Keys
    && (forall n :: n in t.groups && n !in left ==> ServerChosen(t.groups[n], f.groups[n]))
    && (forall n :: n in t.groups && n in left ==> t.groups[n].matchType == f.groups[n].matchType)
  }

  /** A reservation in the files stands for one that was made before the save. */
  ghost predicate JournalLoaded(t: Tables, left: set<nat>)
    reads t`sessions, t`journal, t.sessions.Values
  {
    && (forall j :: 0 <= j < |t.journal| ==> t.journal[j].Reserved?)
    && (forall k :: k in t.sessions && k !in left && t.sessions[k].reservationID != 0 ==>
          Outstanding(t.journal, t.sessions[k], t.sessions[k].reservationID))
  }

  /** A membership in the files was come by before the save. */
  ghost predicate EntrancesLoaded(t: Tables)
    reads t`sessions, t`entrances, t.sessions.Values`group
  {
    && (forall e :: e in t.entrances ==> e.way.Restored?)
    && (forall k :: k in t.sessions && t.sessions[k].group != null ==>
          Entrance(t.sessions[k], t.sessions[k].group, Restored) in t.entrances)
  }

  ghost predicate Loaded(t: Tables, f: Saved)
    reads t, t.sessions.Values, t.bySearchID.Values, t.logins.Values, t.groups.Values
    reads set g, s | g in t.groups.Values && s in g.players :: s
  {
    && SessionsLoaded(t, f) && LoginsLoaded(t, f, {}) && GroupsLoaded(t, f, {}) && ServersChosen(t, f, {}) && JournalLoaded(t, {}) && EntrancesLoaded(t)
  }

  // ---------- Loading

  /** gob's part of loadSessions: fresh sessions with the saved fields and no pointers. */
  method DecodeSessions(f: Saved) returns (sessions: map<nat, Session>)
    ensures sessions.Keys == f.sessions.Keys
    ensures forall k :: k in sessions ==> fresh(sessions[k]) && sessions[k].Record() == f.sessions[k]
    ensures forall k :: k in sessions ==> sessions[k].login == null && sessions[k].group == null
    ensures forall k, j :: k in sessions && j in sessions && k != j ==> sessions[k] != sessions[j]
  {
    sessions := map[];
    var left := f.sessions.Keys;
    while left != {}
      invariant left <= f.sessions.Keys && sessions.Keys == f.sessions.Keys - left
      invariant forall k :: k in sessions ==> fresh(sessions[k]) && sessions[k].Record() == f.sessions[k]
      invariant forall k :: k in sessions ==> sessions[k].login == null && sessions[k].group == null
      invariant forall k, j :: k in sessions && j in sessions && k != j ==> sessions[k] != sessions[j]
      decreases left
    {
      var k :| k in left;
      left := left - {k};
      var s := new Session.Restored(f.sessions[k].addr, f.sessions[k]);
      sessions := sessions[k := s];
    }
  }

  method DecodeLogins(f: Saved) returns (logins: map<nat, LoginInfo>)
    ensures logins.Keys == f.logins.Keys
    ensures forall p :: p in logins ==> fresh(logins[p]) && logins[p].Record() == f.logins[p] && logins[p].session == null
    ensures forall p, q :: p in logins && q in logins && p != q ==> logins[p] != logins[q]
  {
    logins := map[];
    var left := f.logins.Keys;
    while left != {}
      invariant left <= f.logins.Keys && logins.Keys == f.logins.Keys - left
      invariant forall p :: p in logins ==> fresh(logins[p]) && logins[p].Record() == f.logins[p] && logins[p].session == null
      invariant forall p, q :: p in logins && q in logins && p != q ==> logins[p] != logins[q]
      decreases left
    {
      var p :| p in left;
      left := left - {p};
      var r := f.logins[p];
      var l := new LoginInfo(r.profileID, r.inGameName, r.friendKeyGame, r.gpPublicIP, r.deviceAuthenticated, r.restricted, r.openHost);
      logins := logins[p := l];
    }
  }

  method DecodeGroups(f: Saved) returns (groups: map<string, Group>)
    ensures groups.Keys == f.groups.Keys
    ensures forall n :: n in groups ==> fresh(groups[n]) && groups[n].Record() == f.groups[n]
    ensures forall n :: n in groups ==> groups[n].players == {} && groups[n].server == null
    ensures forall m, n :: m in groups && n in groups && m != n ==> groups[m] != groups[n]
  {
    groups := map[];
    var left := f.groups.Keys;
    while left != {}
      invariant left <= f.groups.Keys && groups.Keys == f.groups.Keys - left
      invariant forall n :: n in groups ==> fresh(groups[n]) && groups[n].Record() == f.groups[n]
      invariant forall n :: n in groups ==> groups[n].players == {} && groups[n].server == null
      invariant forall m, n :: m in groups && n in groups && m != n ==> groups[m] != groups[n]
      decreases left
    {
      var n :| n in left;
      left := left - {n};
      var r := f.groups[n];
      var g := new Group.Restored(r.groupName, r.gameName, r.groupID, r.matchType, r.mkwRegion, r.lastJoinIndex);
      groups := groups[n := g];
    }
  }

  method LoadSessions(t: Tables, f: Saved)
    requires t.sessions == map[] && t.bySearchID == map[]
    modifies t`sessions, t`bySearchID
    ensures SessionsLoaded(t, f)
    ensures forall k :: k in t.sessions ==> fresh(t.sessions[k]) && t.sessions[k].login == null && t.sessions[k].group == null
  {
    t.sessions := DecodeSessions(f);
    IndexSessions(t);
  }

  method IndexSessions(t: Tables)
    requires t.bySearchID == map[]
    modifies t`bySearchID
    ensures forall k :: k in t.sessions && t.sessions[k].searchID != 0 ==> t.sessions[k].searchID in t.bySearchID
    ensures forall i :: i in t.bySearchID ==> i != 0 && t.bySearchID[i].searchID == i && t.bySearchID[i] in t.sessions.Values
  {
    var left := t.sessions.Keys;
    while left != {}
      invariant left <= t.sessions.Keys
      invariant forall k :: k in t.sessions && k !in left && t.sessions[k].searchID != 0 ==> t.sessions[k].searchID in t.bySearchID
      invariant forall i :: i in t.bySearchID ==> i != 0 && t.bySearchID[i].searchID == i && t.bySearchID[i] in t.sessions.Values
      decreases left
    {
      var k :| k in left;
      left := left - {k};
      var session := t.sessions[k];
      if session.searchID != 0 {
        t.bySearchID := t.bySearchID[session.searchID := session];
      }
    }
  }

  method LoadLogins(t: Tables, f: Saved)
    requires SessionsLoaded(t, f) && t.logins == map[]
    requires forall k :: k in t.sessions ==> t.sessions[k].login == null
    modifies t`logins, (set s | s in t.sessions.Values)`login
    ensures SessionsLoaded(t, f) && LoginsLoaded(t, f, {})
    ensures forall p :: p in t.logins ==> fresh(t.logins[p])
  {
    t.logins := DecodeLogins(f);
    LinkLogins(t, f);
  }

  method LinkLogins(t: Tables, f: Saved)
    requires t.sessions.Keys == f.sessions.Keys && SessionsLoaded(t, f) && LoginsLoaded(t, f, t.sessions.Keys)
    modifies (set s | s in t.sessions.Values)`login, t.logins.Values
    ensures SessionsLoaded(t, f) && LoginsLoaded(t, f, {})
  {
    hide SessionsLoaded, LoginsLoaded;
    var left := t.sessions.Keys;
    while left != {}
      invariant left <= t.sessions.Keys == f.sessions.Keys
      invariant SessionsLoaded(t, f) && LoginsLoaded(t, f, left)
      decreases left
    {
      var k :| k in left;
      LinkLogin(t, f, k, left);
      left := left - {k};
    }
  }

  /** The login at p and the session at k now point at each other; nothing else changed. */
  twostate predicate LinkMade(t: Tables, k: nat, p: nat)
    reads t, t.sessions.Values, t.logins.Values
  {
    && t.sessions == old(t.sessions) && t.logins == old(t.logins) && t.bySearchID == old(t.bySearchID)
    && k in t.sessions && p in t.logins && t.sessions[k].login == t.logins[p] && t.logins[p].session == t.sessions[k]
    && (forall j :: j in t.sessions && t.sessions[j] != t.sessions[k] ==> t.sessions[j].login == old(t.sessions[j].login))
    && (forall q :: q in t.logins && t.logins[q] != t.logins[p] ==> t.logins[q].session == old(t.logins[q].session))
    && (forall j :: j in t.sessions ==> t.sessions[j].Record() == old(t.sessions[j].Record()))
    && (forall q :: q in t.logins ==> t.logins[q].Record() == old(t.logins[q].Record()))
  }

  twostate lemma SessionsLoadedKept(t: Tables, new f: Saved)
    requires old(SessionsLoaded(t, f)) && t.sessions == old(t.sessions) && t.bySearchID == old(t.bySearchID)
    requires forall j :: j in t.sessions ==> t.sessions[j].Record() == old(t.sessions[j].Record())
    ensures SessionsLoaded(t, f)
  {
    hide LookupKey;
    forall k | k in t.sessions
      ensures RestoredSession(t, f, k)
    {
      assert old(RestoredSession(t, f, k));
    }
  }

  twostate lemma LinkMadeOwner(t: Tables, new f: Saved, new k: nat, new p: nat, new left: set<nat>, new j: nat)
    requires LinkMade(t, k, p) && k in left && k in f.sessions && OwnerOf(f.sessions[k], t.logins.Keys) == Some(p)
    requires j in t.sessions && j in f.sessions && old(OwnerLinked(t, f, j, left))
    requires j != k ==> t.sessions[j] != t.sessions[k]
    ensures OwnerLinked(t, f, j, left - {k})
  {
    hide OwnerOf;
  }

  twostate lemma LinkMadeBack(t: Tables, new k: nat, new p: nat, new q: nat)
    requires LinkMade(t, k, p) && old(t.sessions[k].login) == null
    requires q in t.logins && old(SessionLinked(t, q)) && (q != p ==> t.logins[q] != t.logins[p])
    ensures SessionLinked(t, q)
  {
  }

  twostate lemma LoginsRestoredKept(t: Tables, new f: Saved)
    requires old(LoginsRestored(t, f)) && t.logins == old(t.logins)
    requires forall q :: q in t.logins ==> t.logins[q].Record() == old(t.logins[q].Record())
    ensures LoginsRestored(t, f)
  {
  }

  twostate lemma LinkMadeOwners(t: Tables, new f: Saved, new k: nat, new p: nat, new left: set<nat>)
    requires SessionsLoaded(t, f) && LinkMade(t, k, p) && t.sessions == old(t.sessions) && k in t.sessions
    requires k in left && OwnerOf(f.sessions[k], t.logins.Keys) == Some(p)
    requires forall j :: j in t.sessions ==> old(OwnerLinked(t, f, j, left))
    ensures forall j :: j in t.sessions ==> OwnerLinked(t, f, j, left - {k})
  {
    hide OwnerOf, LookupKey, OwnerLinked, LinkMade;
    assert RestoredSession(t, f, k);
    forall j | j in t.sessions
      ensures OwnerLinked(t, f, j, left - {k})
    {
      LinkMadeOwner(t, f, k, p, left, j);
    }
  }

  twostate lemma LinkMadeBacks(t: Tables, new f: Saved, new k: nat, new p: nat)
    requires LoginsRestored(t, f) && LinkMade(t, k, p) && old(t.sessions[k].login) == null
    requires forall q :: q in t.logins ==> old(SessionLinked(t, q))
    ensures forall q :: q in t.logins ==> SessionLinked(t, q)
  {
    hide SessionLinked;
    forall q | q in t.logins
      ensures SessionLinked(t, q)
    {
      LinkMadeBack(t, k, p, q);
    }
  }

  twostate lemma LinkMadeKept(t: Tables, new f: Saved, new k: nat, new p: nat, new left: set<nat>)
    requires old(SessionsLoaded(t, f) && LoginsLoaded(t, f, left)) && LinkMade(t, k, p)
    requires k in left && OwnerOf(f.sessions[k], t.logins.Keys) == Some(p)
    ensures SessionsLoaded(t, f) && LoginsLoaded(t, f, left - {k})
  {
    hide RestoredSession, LoginsRestored, OwnerOf, SessionLinked;
    SessionsLoadedKept(t, f);
    LoginsRestoredKept(t, f);
    assert old(OwnerLinked(t, f, k, left));
    LinkMadeOwners(t, f, k, p, left);
    LinkMadeBacks(t, f, k, p);
  }

  lemma NothingToLink(t: Tables, f: Saved, k: nat, left: set<nat>)
    requires t.sessions.Keys == f.sessions.Keys && LoginsLoaded(t, f, left)
    requires k in t.sessions && OwnerOf(f.sessions[k], t.logins.Keys).None?
    ensures LoginsLoaded(t, f, left - {k})
  {
    hide OwnerOf, LoginsRestored, SessionLinked;
    forall j | j in t.sessions
      ensures OwnerLinked(t, f, j, left - {k})
    {
      assert OwnerLinked(t, f, j, left);
    }
  }

  lemma DataRestored(t: Tables, f: Saved, k: nat)
    requires SessionsLoaded(t, f) && k in t.sessions
    ensures t.sessions[k].Record() == f.sessions[k]
  {
    assert RestoredSession(t, f, k);
  }

  method LinkLogin(t: Tables, f: Saved, k: nat, ghost left: set<nat>)
    requires SessionsLoaded(t, f) && LoginsLoaded(t, f, left) && k in t.sessions && k in left
    modifies {t.sessions[k]}`login, t.logins.Values
    ensures SessionsLoaded(t, f) && LoginsLoaded(t, f, left - {k})
  {
    hide ParseUint32, Get, LoginsRestored, SessionLinked, OwnerLinked, RestoredSession;
    DataRestored(t, f, k);
    var session := t.sessions[k];
    var dwcPid := session.Pid();
    var profileID := ParseUint32(dwcPid);
    if dwcPid == "" || profileID.None? || profileID.value !in t.logins {
      NothingToLink(t, f, k, left);
      return;
    }
    var login := t.logins[profileID.value];
    login.session := session;
    session.login := login;
    LinkMadeKept(t, f, k, profileID.value, left);
  }

  /** The session at k is now in the group called n; nothing else changed. */
  twostate predicate SeatTaken(t: Tables, k: nat, n: string)
    reads t, t.sessions.Values, t.groups.Values
  {
    && t.sessions == old(t.sessions) && t.groups == old(t.groups)
    && k in t.sessions && n in t.groups && t.sessions[k].group == t.groups[n]
    && t.groups[n].players == old(t.groups[n].players) + {t.sessions[k]}
    && (forall j :: j in t.sessions && t.sessions[j] != t.sessions[k] ==> t.sessions[j].group == old(t.sessions[j].group))
    && (forall m :: m in t.groups && t.groups[m] != t.groups[n] ==> t.groups[m].players == old(t.groups[m].players))
    && (forall m :: m in t.groups ==> t.groups[m].Record() == old(t.groups[m].Record()))
  }

  twostate lemma SeatTakenSeat(t: Tables, new f: Saved, new k: nat, new n: string, new left: set<nat>, new j: nat)
    requires SeatTaken(t, k, n) && GroupsRestored(t, f) && k in left && k in f.sessions && Names(f.sessions[k], n)
    requires j in t.sessions && j in f.sessions && old(Seated(t, f, j, left)) && (j != k ==> t.sessions[j] != t.sessions[k])
    ensures Seated(t, f, j, left - {k})
  {
  }

  twostate lemma GroupsRestoredKept(t: Tables, new f: Saved)
    requires old(GroupsRestored(t, f)) && t.groups == old(t.groups)
    requires forall m :: m in t.groups ==> t.groups[m].Record().(matchType := "") == old(t.groups[m].Record()).(matchType := "")
    ensures GroupsRestored(t, f)
  {
  }

  twostate lemma SeatTakenKept(t: Tables, new f: Saved, new k: nat, new n: string, new left: set<nat>)
    requires SessionsLoaded(t, f) && old(t.sessions.Keys == f.sessions.Keys && GroupsLoaded(t, f, left))
    requires SeatTaken(t, k, n) && k in left && Names(f.sessions[k], n)
    ensures GroupsLoaded(t, f, left - {k})
  {
    hide Seated, Names, LookupKey;
    GroupsRestoredKept(t, f);
    assert RestoredSession(t, f, k);
    forall j | j in t.sessions
      ensures Seated(t, f, j, left - {k})
    {
      SeatTakenSeat(t, f, k, n, left, j);
    }
  }

  lemma NoSeat(t: Tables, f: Saved, k: nat, left: set<nat>)
    requires t.sessions.Keys == f.sessions.Keys && GroupsLoaded(t, f, left) && k in t.sessions
    requires f.sessions[k].groupName == "" || f.sessions[k].groupName !in t.groups
    ensures GroupsLoaded(t, f, left - {k})
  {
    hide GroupsRestored;
    forall j | j in t.sessions
      ensures Seated(t, f, j, left - {k})
    {
      assert Seated(t, f, j, left);
    }
  }

  twostate lemma LoginsLoadedKept(t: Tables, new f: Saved)
    requires old(t.sessions.Keys == f.sessions.Keys && LoginsLoaded(t, f, {}))
    requires t.sessions == old(t.sessions) && t.logins == old(t.logins) && unchanged(old(t.logins.Values))
    requires forall k :: k in t.sessions ==> t.sessions[k].login == old(t.sessions[k].login)
    ensures LoginsLoaded(t, f, {})
  {
    hide OwnerOf;
    forall k | k in t.sessions
      ensures OwnerLinked(t, f, k, {})
    {
      assert old(OwnerLinked(t, f, k, {}));
    }
    forall p | p in t.logins
      ensures SessionLinked(t, p)
    {
      assert old(SessionLinked(t, p));
    }
  }

  lemma NotSeated(t: Tables, f: Saved, k: nat, left: set<nat>)
    requires t.sessions.Keys == f.sessions.Keys && GroupsLoaded(t, f, left) && k in t.sessions && k in left
    ensures t.sessions[k].group == null
    ensures forall n, m :: n in t.groups && m in t.groups && n != m ==> t.groups[n] != t.groups[m]
  {
    assert Seated(t, f, k, left);
  }

  method SeatSession(t: Tables, f: Saved, k: nat, ghost left: set<nat>)
    requires SessionsLoaded(t, f) && LoginsLoaded(t, f, {}) && GroupsLoaded(t, f, left) && k in t.sessions && k in left
    modifies {t.sessions[k]}`group, t.groups.Values`players
    ensures SessionsLoaded(t, f) && LoginsLoaded(t, f, {}) && GroupsLoaded(t, f, left - {k})
  {
    hide GroupsRestored, RestoredSession, LoginsLoaded, Seated;
    DataRestored(t, f, k);
    NotSeated(t, f, k, left);
    var session := t.sessions[k];
    if session.group != null || session.groupName == "" || session.groupName !in t.groups {
      NoSeat(t, f, k, left);
      return;
    }
    var group := t.groups[session.groupName];
    group.players := group.players + {session};
    session.group := group;
    SessionsLoadedKept(t, f);
    LoginsLoadedKept(t, f);
    SeatTakenKept(t, f, k, session.groupName, left);
  }

  method SeatSessions(t: Tables, f: Saved)
    requires t.sessions.Keys == f.sessions.Keys && SessionsLoaded(t, f) && LoginsLoaded(t, f, {}) && GroupsLoaded(t, f, t.sessions.Keys)
    modifies (set s | s in t.sessions.Values)`group, t.groups.Values`players
    ensures SessionsLoaded(t, f) && LoginsLoaded(t, f, {}) && GroupsLoaded(t, f, {})
  {
    hide SessionsLoaded, LoginsLoaded, GroupsLoaded;
    var left := t.sessions.Keys;
    while left != {}
      invariant left <= t.sessions.Keys == f.sessions.Keys
      invariant SessionsLoaded(t, f) && LoginsLoaded(t, f, {}) && GroupsLoaded(t, f, left)
      decreases left
    {
      var k :| k in left;
      SeatSession(t, f, k, left);
      left := left - {k};
    }
  }

  twostate lemma ServersTaken(t: Tables, new f: Saved)
    requires old(t.sessions.Keys == f.sessions.Keys && GroupsLoaded(t, f, {}))
    requires t.sessions == old(t.sessions) && t.groups == old(t.groups)
    requires forall k :: k in t.sessions ==> t.sessions[k].group == old(t.sessions[k].group)
    requires forall m :: m in t.groups ==> t.groups[m].players == old(t.groups[m].players)
    requires forall m :: m in t.groups ==> t.groups[m].Record().(matchType := "") == old(t.groups[m].Record()).(matchType := "")
    ensures GroupsLoaded(t, f, {})
  {
    GroupsRestoredKept(t, f);
    forall k | k in t.sessions
      ensures Seated(t, f, k, {})
    {
      assert old(Seated(t, f, k, {}));
    }
  }

  lemma GroupsApart(t: Tables, f: Saved, n: string)
    requires GroupsRestored(t, f) && n in t.groups
    ensures forall m :: m in t.groups && m != n ==> t.groups[m] != t.groups[n]
  {
  }

  method ChooseServer(t: Tables, f: Saved, n: string, ghost left: set<string>)
    requires n in t.groups && n in left && GroupsRestored(t, f) && ServersChosen(t, f, left)
    modifies {t.groups[n]}`server, {t.groups[n]}`matchType
    ensures GroupsRestored(t, f) && ServersChosen(t, f, left - {n})
  {
    hide ServerChosen, GroupsRestored, ServersChosen;
    GroupsApart(t, f, n);
    NotChosen(t, f, n, left);
    Choose(t.groups[n], f.groups[n]);
    GroupsRestoredKept(t, f);
    StillChosen(t, f, n, left);
  }

  lemma NotChosen(t: Tables, f: Saved, n: string, left: set<string>)
    requires n in t.groups && n in left && ServersChosen(t, f, left)
    ensures n in f.groups && t.groups[n].matchType == f.groups[n].matchType
  {
  }

  twostate lemma StillChosen(t: Tables, new f: Saved, new n: string, new left: set<string>)
    requires old(ServersChosen(t, f, left)) && t.groups == old(t.groups) && n in t.groups && n in f.groups
    requires ServerChosen(t.groups[n], f.groups[n])
    requires forall m :: m in t.groups && m != n ==> unchanged(t.groups[m]) && unchanged(t.groups[m].players)
    ensures ServersChosen(t, f, left - {n})
  {
    forall m | m in t.groups && m !in left - {n}
      ensures ServerChosen(t.groups[m], f.groups[m])
    {
      if m != n {
        assert old(ServerChosen(t.groups[m], f.groups[m]));
      }
    }
  }

  method Choose(g: Group, ghost r: GroupRecord)
    requires g.matchType == r.matchType
    modifies g`server, g`matchType
    ensures ServerChosen(g, r)
  {
    g.FindNewServer();
  }

  method ChooseServers(t: Tables, f: Saved)
    requires t.sessions.Keys == f.sessions.Keys && GroupsLoaded(t, f, {})
    requires ServersChosen(t, f, t.groups.Keys)
    modifies t.groups.Values`server, t.groups.Values`matchType
    ensures GroupsLoaded(t, f, {}) && ServersChosen(t, f, {})
  {
    hide ServersChosen, Seated;
    var left := t.groups.Keys;
    while left != {}
      invariant left <= t.groups.Keys
      invariant GroupsRestored(t, f) && ServersChosen(t, f, left)
      decreases left
    {
      var n :| n in left;
      ChooseServer(t, f, n, left);
      left := left - {n};
    }
    ServersTaken(t, f);
  }

  method LoadGroups(t: Tables, f: Saved)
    requires SessionsLoaded(t, f) && LoginsLoaded(t, f, {}) && t.groups == map[]
    requires forall k :: k in t.sessions ==> t.sessions[k].group == null
    modifies t`groups, (set s | s in t.sessions.Values)`group
    ensures SessionsLoaded(t, f) && LoginsLoaded(t, f, {}) && GroupsLoaded(t, f, {}) && ServersChosen(t, f, {})
  {
    hide SessionsLoaded, LoginsLoaded, GroupsLoaded, ServersChosen;
    SessionKeys(t, f);
    t.groups := DecodeGroups(f);
    Decoded(t, f);
    FillGroups(t, f);
  }

  method FillGroups(t: Tables, f: Saved)
    requires t.sessions.Keys == f.sessions.Keys && SessionsLoaded(t, f) && LoginsLoaded(t, f, {}) && GroupsLoaded(t, f, t.sessions.Keys)
    requires t.groups.Keys == f.groups.Keys && forall n :: n in t.groups ==> t.groups[n].matchType == f.groups[n].matchType
    modifies (set s | s in t.sessions.Values)`group, t.groups.Values
    ensures SessionsLoaded(t, f) && LoginsLoaded(t, f, {}) && GroupsLoaded(t, f, {}) && ServersChosen(t, f, {})
  {
    hide SessionsLoaded, LoginsLoaded, GroupsLoaded, ServersChosen;
    SeatSessions(t, f);
    NoneChosen(t, f);
    ChooseServers(t, f);
  }

  lemma SessionKeys(t: Tables, f: Saved)
    requires SessionsLoaded(t, f)
    ensures t.sessions.Keys == f.sessions.Keys
  {
  }

  lemma Decoded(t: Tables, f: Saved)
    requires t.groups.Keys == f.groups.Keys && t.sessions.Keys == f.sessions.Keys
    requires forall n :: n in t.groups ==> t.groups[n].Record() == f.groups[n] && t.groups[n].players == {}
    requires forall m, n :: m in t.groups && n in t.groups && m != n ==> t.groups[m] != t.groups[n]
    requires forall k :: k in t.sessions ==> t.sessions[k].group == null
    ensures GroupsLoaded(t, f, t.sessions.Keys)
  {
  }

  lemma NoneChosen(t: Tables, f: Saved)
    requires t.groups.Keys == f.groups.Keys && forall n :: n in t.groups ==> t.groups[n].matchType == f.groups[n].matchType
    ensures ServersChosen(t, f, t.groups.Keys)
  {
  }

  /** What a reservation in the file stands for in the new journal. */
  ghost method SeedJournal(t: Tables)
    requires t.journal == []
    modifies t`journal
    ensures JournalLoaded(t, {})
  {
    var left := t.sessions.Keys;
    while left != {}
      invariant left <= t.sessions.Keys
      invariant JournalLoaded(t, left)
      decreases left
    {
      var k :| k in left;
      left := left - {k};
      var s := t.sessions[k];
      var longer := t.journal + [Reserved(s, s.reservationID)];
      assert longer[..|t.journal|] == t.journal;
      t.journal := longer;
    }
  }

  ghost method SeedEntrances(t: Tables)
    modifies t`entrances
    ensures EntrancesLoaded(t)
  {
    t.entrances := set k | k in t.sessions && t.sessions[k].group != null :: Entrance(t.sessions[k], t.sessions[k].group, Restored);
  }

  ghost method SeedHistory(t: Tables)
    requires t.journal == []
    modifies t`journal, t`entrances
    ensures JournalLoaded(t, {}) && EntrancesLoaded(t)
  {
    hide JournalLoaded, EntrancesLoaded;
    SeedJournal(t);
    SeedEntrances(t);
  }

  method Load(f: Saved) returns (t: Tables)
    ensures fresh(t) && Loaded(t, f)
  {
    hide SessionsLoaded, LoginsLoaded, GroupsLoaded, ServersChosen, EntrancesLoaded, JournalLoaded;
    t := new Tables();
    LoadTables(t, f);
  }

  method LoadTables(t: Tables, f: Saved)
    requires t.sessions == map[] && t.bySearchID == map[] && t.logins == map[] && t.groups == map[] && t.journal == []
    modifies t
    ensures Loaded(t, f)
  {
    hide SessionsLoaded, LoginsLoaded, GroupsLoaded, ServersChosen, EntrancesLoaded, JournalLoaded;
    LoadSessions(t, f);
    SessionKeys(t, f);
    LoadLogins(t, f);
    LoadGroups(t, f);
    SeedHistory(t);
  }

  // ---------- Every valid state is loadable, and every loadable file loads into a valid state

  lemma SavedPid(t: Tables, k: nat)
    requires t.LoginsOK(null) && k in t.sessions
    ensures t.sessions[k].Pid() == "" || exists p :: p in t.logins && t.sessions[k].Pid() == FormatNat(p)
  {
    assert t.LoginLinked(t.sessions[k]);
  }

  lemma SavedSeat(t: Tables, k: nat)
    requires t.GroupsOK() && t.AllIndicesOK() && k in t.sessions && t.sessions[k].groupName != ""
    ensures t.sessions[k].groupName in t.groups
    ensures t.sessions[k].JoinIndex().Some? && 0 <= t.sessions[k].JoinIndex().value <= t.groups[t.sessions[k].groupName].lastJoinIndex
  {
    assert t.GroupLinked(t.sessions[k]);
    assert t.IndicesOK(t.groups[t.sessions[k].groupName]);
  }

  lemma SavedSession(t: Tables, k: nat)
    requires t.Valid() && k in t.sessions
    ensures SessionLoadable(Save(t), k)
  {
    hide FormatNat, ParseInt, Outstanding, LookupKey;
    SavedPid(t, k);
    assert t.ReservationOK(t.sessions[k]);
    if t.sessions[k].groupName != "" {
      SavedSeat(t, k);
    }
  }

  lemma SavedApart(t: Tables, k: nat, j: nat)
    requires t.Valid() && k in t.sessions && j in t.sessions && k != j
    ensures !Clash(t.sessions[k].Record(), t.sessions[j].Record())
  {
    hide FormatNat, ParseInt, Outstanding, LookupKey;
    var s, u := t.sessions[k], t.sessions[j];
    assert t.Live(s) && t.Live(u) && s != u;
    t.SessionsDistinct(s, u);
    assert t.GroupLinked(s) && t.GroupLinked(u);
    if s.groupName != "" && s.groupName == u.groupName {
      assert t.IndicesOK(t.groups[s.groupName]);
    }
  }

  lemma SavedGroup(t: Tables, n: string)
    requires t.Valid() && n in t.groups
    ensures exists k :: k in t.sessions && t.sessions[k].groupName == n
  {
    assert t.GroupOK(t.groups[n]);
    var s :| s in t.groups[n].players;
    assert t.GroupLinked(t.sessions[LookupKey(s.addr)]);
  }

  lemma SavedIsLoadable(t: Tables)
    requires t.Valid()
    ensures Loadable(Save(t))
  {
    var f := Save(t);
    forall k | k in f.sessions
      ensures SessionLoadable(f, k)
    {
      SavedSession(t, k);
    }
    forall k, j | k in f.sessions && j in f.sessions && k != j
      ensures !Clash(f.sessions[k], f.sessions[j])
    {
      SavedApart(t, k, j);
    }
    forall n | n in f.groups
      ensures exists k :: k in f.sessions && f.sessions[k].groupName == n
    {
      SavedGroup(t, n);
      var k :| k in t.sessions && t.sessions[k].groupName == n;
      assert f.sessions[k].groupName == n;
    }
  }

  lemma LoadedKeys(t: Tables, f: Saved)
    requires SessionsLoaded(t, f) && Loadable(f)
    ensures forall k :: k in t.sessions ==> LookupKey(t.sessions[k].addr) == k && t.Live(t.sessions[k])
  {
    hide LookupKey;
    forall k | k in t.sessions
      ensures LookupKey(t.sessions[k].addr) == k
    {
      assert RestoredSession(t, f, k) && SessionLoadable(f, k);
    }
  }

  lemma ClashMeansSame(f: Saved, j: nat, k: nat)
    requires Loadable(f) && j in f.sessions && k in f.sessions && Clash(f.sessions[j], f.sessions[k])
    ensures j == k
  {
  }

  lemma LoadedIndexed(t: Tables, f: Saved)
    requires SessionsLoaded(t, f) && Loadable(f)
    ensures t.Indexed()
  {
    hide LookupKey;
    LoadedKeys(t, f);
    forall k | k in t.sessions
      ensures t.sessions[k].searchID in t.bySearchID && t.bySearchID[t.sessions[k].searchID] == t.sessions[k]
    {
      assert RestoredSession(t, f, k) && SessionLoadable(f, k);
      var u := t.bySearchID[t.sessions[k].searchID];
      var j :| j in t.sessions && t.sessions[j] == u;
      assert RestoredSession(t, f, j);
      ClashMeansSame(f, j, k);
    }
  }

  lemma OwnerOfPid(f: Saved, k: nat)
    requires Loadable(f) && k in f.sessions && forall p :: p in f.logins ==> p < 0x1_0000_0000
    ensures OwnerOf(f.sessions[k], f.logins.Keys).None? ==> PidOf(f.sessions[k]) == ""
    ensures OwnerOf(f.sessions[k], f.logins.Keys).Some? ==> PidOf(f.sessions[k]) == FormatNat(OwnerOf(f.sessions[k], f.logins.Keys).value)
  {
    hide FormatNat, LookupKey;
    assert SessionLoadable(f, k);
    if PidOf(f.sessions[k]) != "" {
      var p :| p in f.logins && PidOf(f.sessions[k]) == FormatNat(p);
      NatValueOfFormat(p);
    }
  }

  lemma LoadedLogins(t: Tables, f: Saved)
    requires SessionsLoaded(t, f) && LoginsLoaded(t, f, {}) && Loadable(f)
    ensures t.LoginsOK(null)
  {
    hide LookupKey, FormatNat, OwnerOf, PidOf;
    LoadedKeys(t, f);
    forall p | p in t.logins
      ensures t.logins[p].profileID == p && p < 0x1_0000_0000
    {
      assert t.logins[p].Record() == f.logins[p];
    }
    forall p | p in t.logins && t.logins[p].session != null
      ensures t.Live(t.logins[p].session) && t.logins[p].session.login == t.logins[p]
    {
      assert SessionLinked(t, p);
    }
    forall k | k in t.sessions
      ensures t.LoginLinked(t.sessions[k])
    {
      LoadedLink(t, f, k);
    }
  }

  lemma LoadedLink(t: Tables, f: Saved, k: nat)
    requires SessionsLoaded(t, f) && LoginsLoaded(t, f, {}) && Loadable(f) && k in t.sessions
    requires forall p :: p in t.logins ==> t.logins[p].profileID == p && p < 0x1_0000_0000
    ensures t.LoginLinked(t.sessions[k])
  {
    hide LookupKey, FormatNat, OwnerOf;
    assert RestoredSession(t, f, k) && OwnerLinked(t, f, k, {});
    OwnerOfPid(f, k);
    var owner := OwnerOf(f.sessions[k], t.logins.Keys);
    if owner.Some? {
      var l := t.logins[owner.value];
      assert SessionLinked(t, owner.value);
      var j :| j in t.sessions && t.sessions[j] == l.session;
      assert OwnerLinked(t, f, j, {}) && RestoredSession(t, f, j);
      OwnerOfPid(f, j);
      ClashMeansSame(f, j, k);
    }
  }

  lemma LoadedMember(t: Tables, f: Saved, n: string, s: Session) returns (k: nat)
    requires SessionsLoaded(t, f) && GroupsLoaded(t, f, {}) && Loadable(f) && n in t.groups && s in t.groups[n].players
    ensures k in t.sessions && k in f.sessions && t.sessions[k] == s && f.sessions[k] == s.Record() && f.sessions[k].groupName == n
  {
    hide LookupKey;
    assert s in t.sessions.Values;
    k :| k in t.sessions && t.sessions[k] == s;
    assert Seated(t, f, k, {}) && RestoredSession(t, f, k);
  }

  lemma LoadedMembers(t: Tables, f: Saved, n: string)
    requires SessionsLoaded(t, f) && GroupsLoaded(t, f, {}) && Loadable(f) && n in t.groups
    ensures t.groups[n].players != {}
    ensures forall s :: s in t.groups[n].players ==> t.Live(s) && s.group == t.groups[n]
  {
    hide LookupKey, Loadable, RestoredSession;
    LoadedKeys(t, f);
    var k := SomeMember(f, n);
    assert Seated(t, f, k, {});
    forall s | s in t.groups[n].players
      ensures t.Live(s) && s.group == t.groups[n]
    {
      var j := LoadedMember(t, f, n, s);
      assert Seated(t, f, j, {});
    }
  }

  lemma SomeMember(f: Saved, n: string) returns (k: nat)
    requires Loadable(f) && n in f.groups
    ensures k in f.sessions && f.sessions[k].groupName == n && n != "" && f.groups[n].groupName == n
  {
    k :| k in f.sessions && f.sessions[k].groupName == n;
  }

  lemma LoadedGroup(t: Tables, f: Saved, n: string)
    requires SessionsLoaded(t, f) && GroupsLoaded(t, f, {}) && ServersChosen(t, f, {}) && Loadable(f) && n in t.groups
    ensures n != "" && t.groups[n].groupName == n && t.GroupOK(t.groups[n])
  {
    hide LookupKey, Loadable, SessionsLoaded, Seated;
    var g := t.groups[n];
    assert g.Record().(matchType := "") == f.groups[n].(matchType := "");
    var k := SomeMember(f, n);
    assert ServerChosen(g, f.groups[n]);
    LoadedMembers(t, f, n);
  }

  lemma LoadedSeat(t: Tables, f: Saved, k: nat)
    requires t.sessions.Keys == f.sessions.Keys && GroupsLoaded(t, f, {}) && k in t.sessions
    requires RestoredSession(t, f, k) && SessionLoadable(f, k) && forall n :: n in f.groups ==> f.groups[n].groupName == n
    ensures t.GroupLinked(t.sessions[k])
  {
    hide LookupKey;
    assert Seated(t, f, k, {});
    var n := f.sessions[k].groupName;
    if n != "" {
      assert t.groups[n].Record().(matchType := "") == f.groups[n].(matchType := "");
    }
  }

  lemma LoadedGroups(t: Tables, f: Saved)
    requires SessionsLoaded(t, f) && GroupsLoaded(t, f, {}) && ServersChosen(t, f, {}) && Loadable(f)
    ensures t.GroupsOK()
  {
    hide LookupKey, ServersChosen, GroupsLoaded, RestoredSession, SessionLoadable;
    forall n | n in t.groups
      ensures n != "" && t.groups[n].groupName == n && t.GroupOK(t.groups[n])
    {
      LoadedGroup(t, f, n);
    }
    forall k | k in t.sessions
      ensures t.GroupLinked(t.sessions[k])
    {
      LoadedSeat(t, f, k);
    }
  }

  lemma LoadedIndices(t: Tables, f: Saved)
    requires SessionsLoaded(t, f) && GroupsLoaded(t, f, {}) && Loadable(f)
    ensures t.AllIndicesOK()
  {
    hide LookupKey, SessionsLoaded, GroupsLoaded, ParseInt;
    forall n | n in t.groups
      ensures t.IndicesOK(t.groups[n])
    {
      LoadedLast(t, f, n);
      forall s | s in t.groups[n].players
        ensures s.JoinIndex().Some? && 0 <= s.JoinIndex().value <= t.groups[n].lastJoinIndex
      {
        var k := LoadedMember(t, f, n, s);
        assert SessionLoadable(f, k);
      }
      forall s, u | s in t.groups[n].players && u in t.groups[n].players && s != u
        ensures s.JoinIndex() != u.JoinIndex()
      {
        var k := LoadedMember(t, f, n, s);
        var j := LoadedMember(t, f, n, u);
        assert !Clash(f.sessions[k], f.sessions[j]);
      }
    }
  }

  lemma LoadedLast(t: Tables, f: Saved, n: string)
    requires SessionsLoaded(t, f) && GroupsLoaded(t, f, {}) && n in t.groups
    ensures n in f.groups && t.groups[n].lastJoinIndex == f.groups[n].lastJoinIndex
  {
    assert t.groups[n].Record().(matchType := "") == f.groups[n].(matchType := "");
  }

  lemma LoadedReservation(t: Tables, f: Saved, k: nat)
    requires k in t.sessions && k in f.sessions && RestoredSession(t, f, k) && SessionLoadable(f, k) && JournalLoaded(t, {})
    ensures t.ReservationOK(t.sessions[k])
  {
    hide LookupKey, Outstanding, FormatNat, ParseInt;
  }

  lemma LoadedEntrances(t: Tables)
    requires EntrancesLoaded(t)
    ensures AllJustified(t.journal, t.entrances)
    ensures forall k :: k in t.sessions ==> t.Admitted(t.sessions[k])
  {
  }

  lemma LoadedHistory(t: Tables, f: Saved)
    requires SessionsLoaded(t, f) && JournalLoaded(t, {}) && EntrancesLoaded(t) && Loadable(f)
    ensures t.HistoryOK()
  {
    hide LookupKey, Outstanding, RestoredSession, SessionLoadable, JournalLoaded, EntrancesLoaded, AllJustified;
    LoadedEntrances(t);
    forall k | k in t.sessions
      ensures t.ReservationOK(t.sessions[k]) && t.Admitted(t.sessions[k])
    {
      assert RestoredSession(t, f, k) && SessionLoadable(f, k);
      LoadedReservation(t, f, k);
    }
  }

  lemma LoadableLoads(t: Tables, f: Saved)
    requires Loaded(t, f) && Loadable(f)
    ensures t.Valid()
  {
    hide SessionsLoaded, LoginsLoaded, GroupsLoaded, ServersChosen, EntrancesLoaded, JournalLoaded, Loadable;
    LoadedIndexed(t, f);
    LoadedLogins(t, f);
    LoadedGroups(t, f);
    LoadedIndices(t, f);
    LoadedHistory(t, f);
  }

  /** What was loaded would be saved as it was, but for match types the new servers decide. */
  lemma SavedAgain(t: Tables, f: Saved)
    requires Loaded(t, f)
    ensures Save(t).sessions == f.sessions && Save(t).logins == f.logins && Save(t).groups.Keys == f.groups.Keys
    ensures forall n :: n in f.groups ==> Save(t).groups[n].(matchType := "") == f.groups[n].(matchType := "")
  {
    hide ServersChosen, Seated, OwnerLinked, LookupKey;
    forall k | k in f.sessions
      ensures Save(t).sessions[k] == f.sessions[k]
    {
      DataRestored(t, f, k);
    }
  }

  lemma LoadableAlike(f: Saved, g: Saved)
    requires Loadable(f) && f.sessions == g.sessions && f.logins == g.logins && f.groups.Keys == g.groups.Keys
    requires forall n :: n in f.groups ==> f.groups[n].(matchType := "") == g.groups[n].(matchType := "")
    ensures Loadable(g)
  {
    hide SessionLoadable, Clash;
    forall n | n in f.groups
      ensures f.groups[n].groupName == g.groups[n].groupName && f.groups[n].lastJoinIndex == g.groups[n].lastJoinIndex
    {
      assert f.groups[n].(matchType := "") == g.groups[n].(matchType := "");
    }
    forall k | k in g.sessions
      ensures SessionLoadable(g, k)
    {
      SessionLoadableAlike(f, g, k);
    }
    forall n | n in g.groups
      ensures exists k :: k in g.sessions && g.sessions[k].groupName == n
    {
      var k := SomeMember(f, n);
    }
  }

  lemma SessionLoadableAlike(f: Saved, g: Saved, k: nat)
    requires k in f.sessions && SessionLoadable(f, k) && f.sessions == g.sessions && f.logins == g.logins && f.groups.Keys == g.groups.Keys
    requires forall n :: n in f.groups ==> f.groups[n].lastJoinIndex == g.groups[n].lastJoinIndex
    ensures SessionLoadable(g, k)
  {
    hide LookupKey, FormatNat, ParseInt;
  }

  /** The files that load into a valid state are exactly the loadable ones. */
  lemma LoadedIsValid(t: Tables, f: Saved)
    requires Loaded(t, f)
    ensures t.Valid() <==> Loadable(f)
  {
    hide Loaded, Loadable, Save;
    if Loadable(f) {
      LoadableLoads(t, f);
    }
    if t.Valid() {
      SavedIsLoadable(t);
      SavedAgain(t, f);
      LoadableAlike(Save(t), f);
    }
  }

  lemma SameLogin(t: Tables, u: Tables, k: nat)
    requires t.LoginsOK(null) && u.LoginsOK(null) && k in t.sessions && k in u.sessions
    requires t.sessions[k].Record() == u.sessions[k].Record()
    ensures t.sessions[k].login == null <==> u.sessions[k].login == null
    ensures t.sessions[k].login != null ==> t.sessions[k].login.profileID == u.sessions[k].login.profileID
  {
    assert t.LoginLinked(t.sessions[k]) && u.LoginLinked(u.sessions[k]);
    if t.sessions[k].login != null && u.sessions[k].login != null {
      FormatInjective(t.sessions[k].login.profileID, u.sessions[k].login.profileID);
    }
  }

  lemma MemberByName(t: Tables, k: nat, n: string)
    requires t.Valid() && k in t.sessions && n in t.groups
    ensures t.sessions[k] in t.groups[n].players <==> t.sessions[k].groupName == n
  {
    hide LookupKey;
    assert t.Live(t.sessions[k]);
    t.OneGroupPerSession(t.sessions[k], n);
    assert t.GroupLinked(t.sessions[k]);
  }

  /** Saving a valid state and loading it gives the same sessions, login links and memberships in a valid state. */
  lemma ReloadKeeps(t: Tables, u: Tables)
    requires t.Valid() && Loaded(u, Save(t))
    ensures u.Valid()
    ensures Save(u).sessions == Save(t).sessions && Save(u).logins == Save(t).logins && u.groups.Keys == t.groups.Keys
    ensures forall k :: k in t.sessions ==> (t.sessions[k].login == null <==> u.sessions[k].login == null)
    ensures forall k :: k in t.sessions && t.sessions[k].login != null ==> t.sessions[k].login.profileID == u.sessions[k].login.profileID
    ensures forall k, n :: k in t.sessions && n in t.groups ==>
              (t.sessions[k] in t.groups[n].players <==> u.sessions[k] in u.groups[n].players)
    ensures forall n :: n in t.groups ==> u.groups[n].Record().(matchType := "") == t.groups[n].Record().(matchType := "")
    ensures forall n :: n in u.groups ==> u.groups[n].IsServerChoice(u.groups[n].server)
  {
    SavedIsLoadable(t);
    LoadedIsValid(u, Save(t));
    SavedAgain(u, Save(t));
    forall n | n in t.groups
      ensures u.groups[n].Record().(matchType := "") == t.groups[n].Record().(matchType := "")
    {
      assert Save(u).groups[n].(matchType := "") == Save(t).groups[n].(matchType := "");
    }
    forall n | n in u.groups
      ensures u.groups[n].IsServerChoice(u.groups[n].server)
    {
      assert ServerChosen(u.groups[n], Save(t).groups[n]);
    }
    hide LookupKey, Loaded, Loadable;
    forall k | k in t.sessions
      ensures t.sessions[k].login == null <==> u.sessions[k].login == null
      ensures t.sessions[k].login != null ==> t.sessions[k].login.profileID == u.sessions[k].login.profileID
    {
      assert Save(u).sessions[k] == Save(t).sessions[k];
      SameLogin(t, u, k);
    }
    forall k, n | k in t.sessions && n in t.groups
      ensures t.sessions[k] in t.groups[n].players <==> u.sessions[k] in u.groups[n].players
    {
      assert Save(u).sessions[k] == Save(t).sessions[k];
      MemberByName(t, k, n);
      MemberByName(u, k, n);
    }
  }
}
