/**
 main.go: the frontend forwards connections to a backend that can be replaced.  Every
 handler, the shutdown, the waiter and the backend's calls take one step at a time.
 */
module HandOver {
  import opened MatchCommand

  /** A server name and a connection count, which never repeats. */
  datatype Key = Key(server: string, index: nat)

  datatype Kind = Open | Packet | Close

  /** Where a connection handler is. */
  datatype Phase =
    | Want(kind: Kind)                        // about to lock the mutex
    | Locked(kind: Kind)                      // holding it
    | Checked                                 // holding it, still registered, about to close
    | Ready(kind: Kind)                       // counted as busy, about to call
    | Calling(kind: Kind, client: nat)        // the call is on its way
    | Returned(kind: Kind, ok: bool)          // still counted as busy
    | Reading
    | WantDrop                                // the backend refused the connection
    | LockedDrop
    | Gone

  predicate Counted(p: Phase) {
    p.Ready? || p.Calling? || p.Returned?
  }

  predicate Closing(p: Phase) {
    Counted(p) && p.kind == Close
  }

  /** Past its registration, and not yet past the section that ends it. */
  predicate Registered(p: Phase) {
    p != Want(Open) && p != Locked(Open) && !Closing(p) && p != Gone
  }

  /** Where a handler goes on when its call has returned. */
  function AfterCall(kind: Kind, ok: bool): Phase {
    match kind
    case Open => if ok then Reading else WantDrop
    case Packet => if ok then Reading else Want(Close)
    case Close => Gone
  }

  predicate HoldsLock(p: Phase) {
    p.Locked? || p.Checked? || p.LockedDrop?
  }

  /** Draining: ShutdownBackend waits for the calls under way; Down: it has returned, and a waiter waits for a backend. */
  datatype Mutex = Free | Held(by_: Key) | Draining | Down

  datatype Action =
    | Accept(k: Key)
    | Lock(k: Key)
    | Section(k: Key)
    | Forward(k: Key)
    | Return(k: Key, ok: bool)
    | Finish(k: Key)
    | Read(k: Key, ok: bool)
    | BeginShutdown
    | EndShutdown(uuid: string)
    | BackendReady
    | Connect
    | VerifyState(uuid: string)

  ghost function Busy(handlers: map<Key, Phase>): set<Key> {
    set k | k in handlers && Counted(handlers[k])
  }

  lemma BusyMoves(handlers: map<Key, Phase>, k: Key, p: Phase)
    requires k in handlers
    ensures |Busy(handlers[k := p])| ==
              |Busy(handlers)| + (if Counted(p) then 1 else 0) - (if Counted(handlers[k]) then 1 else 0)
  {
    var before, after := Busy(handlers), Busy(handlers[k := p]);
    if Counted(p) && !Counted(handlers[k]) {
      assert after == before + {k};
    } else if !Counted(p) && Counted(handlers[k]) {
      assert after == before - {k};
    } else {
      assert after == before;
    }
  }

  lemma BusyNew(handlers: map<Key, Phase>, k: Key)
    requires k !in handlers
    ensures |Busy(handlers[k := Want(Open)])| == |Busy(handlers)|
  {
    assert Busy(handlers[k := Want(Open)]) == Busy(handlers);
  }

  lemma IsBusy(handlers: map<Key, Phase>, k: Key)
    requires k in handlers && Counted(handlers[k])
    ensures |Busy(handlers)| > 0
  {
    assert k in Busy(handlers);
  }

  class Frontend {
    const integrated: bool
    var handlers: map<Key, Phase>
    var connections: set<Key>
    var mutex: Mutex
    var busyCount: int
    /** The number of the client in use; there is none before the first backend. */
    var client: Option<nat>
    var backendReady: bool
    var frontendUuid: string

    /** Close calls forwarded so far. */
    ghost var closes: multiset<Key>
    /** Connections a VerifyState reset removed. */
    ghost var dropped: set<Key>
    /** Connections whose opening call the backend refused. */
    ghost var refused: set<Key>
    /** Those of them whose handler was just past its check, inside its section. */
    ghost var raced: set<Key>

    constructor (integrated: bool)
      ensures Valid() && handlers == map[] && connections == {} && mutex == Down && frontendUuid == "" && closes == multiset{} && dropped == {} && refused == {} && raced == {}
    {
      this.integrated := integrated;
      handlers, connections, mutex, busyCount, client := map[], {}, Down, 0, None;
      backendReady, frontendUuid := false, "";
      closes, dropped, refused, raced := multiset{}, {}, {}, {};
    }

    /** The mutex is held by the one handler that is inside a section. */
    ghost predicate LockOK()
      reads this`mutex, this`handlers
    {
      && (mutex.Held? ==> mutex.by_ in handlers && HoldsLock(handlers[mutex.by_]))
      && (forall k :: k in handlers && HoldsLock(handlers[k]) ==> mutex == Held(k))
    }

    /** Calls under way are counted, none is while the backend is down, and all go to the client in use. */
    ghost predicate CallsOK()
      reads this`busyCount, this`handlers, this`mutex, this`client
    {
      && busyCount == |Busy(handlers)|
      && (mutex == Down ==> busyCount == 0)
      && (client.None? ==> mutex == Down)
      && (forall k :: k in handlers && handlers[k].Calling? ==> client == Some(handlers[k].client))
    }

    /** A closing call is made once, by a connection that was registered when its handler checked. */
    ghost predicate CloseOK(k: Key)
      requires k in handlers
      reads this`handlers, this`closes, this`connections, this`dropped, this`refused, this`raced
    {
      && closes[k] <= 1
      && (closes[k] == 1 ==> handlers[k] == Gone || (Closing(handlers[k]) && !handlers[k].Ready?))
      && (Closing(handlers[k]) && !handlers[k].Ready? ==> closes[k] == 1)
      && (k in dropped ==> handlers[k] != Want(Open) && handlers[k] != Locked(Open))
      && (handlers[k].Checked? ==> k in connections || k in raced)
      && (k in dropped && (Closing(handlers[k]) || closes[k] == 1) ==> k in raced)
      && (k in raced ==> k in dropped && (handlers[k].Checked? || Closing(handlers[k]) || closes[k] == 1))
      && (k in connections ==> k !in dropped && Registered(handlers[k]))
      && (Registered(handlers[k]) ==> k in connections || k in dropped)
      && (handlers[k] == Gone ==> closes[k] == 1 || k in dropped || k in refused)
      && (k in refused ==> handlers[k] == Gone && closes[k] == 0)
    }

    ghost predicate ClosesOK()
      reads this`handlers, this`closes, this`connections, this`dropped, this`refused, this`raced
    {
      && (forall k :: k in handlers ==> CloseOK(k))
      && (forall k :: k in closes || k in connections || k in dropped || k in refused || k in raced ==> k in handlers)
    }

    ghost predicate Valid()
      reads this
    {
      LockOK() && CallsOK() && ClosesOK()
    }

    /** What the invariant says about one handler. */
    lemma Here(k: Key)
      requires Valid() && k in handlers
      ensures CloseOK(k) && (HoldsLock(handlers[k]) <==> mutex == Held(k))
      ensures Counted(handlers[k]) ==> busyCount > 0 && mutex != Down && client.Some?
    {
      if Counted(handlers[k]) {
        IsBusy(handlers, k);
      }
    }

    /** One handler moved to its next phase, and the rest of the state changed in step with that. */
    twostate lemma Moved(k: Key)
      requires old(Valid()) && k in old(handlers) && k in handlers && handlers == old(handlers)[k := handlers[k]]
      requires client == old(client) && dropped == old(dropped) && raced == old(raced)
      requires mutex == old(mutex) || ((old(mutex) == Free || old(mutex) == Held(k)) && (mutex == Free || mutex == Held(k)))
      requires mutex == Held(k) <==> HoldsLock(handlers[k])
      requires busyCount == old(busyCount) + (if Counted(handlers[k]) then 1 else 0) - (if Counted(old(handlers)[k]) then 1 else 0)
      requires Counted(handlers[k]) ==> mutex != Down
      requires handlers[k].Calling? ==> client == Some(handlers[k].client)
      requires closes == old(closes) || closes == old(closes) + multiset{k}
      requires connections == old(connections) || connections == old(connections) + {k} || connections == old(connections) - {k}
      requires refused == old(refused) || refused == old(refused) + {k}
      requires CloseOK(k)
      ensures Valid()
    {
      hide ClosesOK;
      BusyMoves(old(handlers), k, handlers[k]);
      MovedCloses(k);
    }

    twostate lemma MovedCloses(k: Key)
      requires old(ClosesOK()) && k in old(handlers) && k in handlers && handlers == old(handlers)[k := handlers[k]]
      requires dropped == old(dropped) && raced == old(raced)
      requires closes == old(closes) || closes == old(closes) + multiset{k}
      requires connections == old(connections) || connections == old(connections) + {k} || connections == old(connections) - {k}
      requires refused == old(refused) || refused == old(refused) + {k}
      requires CloseOK(k)
      ensures ClosesOK()
    {
      forall j | j in handlers
        ensures CloseOK(j)
      {
        if j != k {
          assert old(CloseOK(j));
        }
      }
    }

    // ---------- handleConnection

    method AcceptConnection(k: Key)
      requires Valid() && k !in handlers
      modifies this`handlers
      ensures Valid() && handlers == old(handlers)[k := Want(Open)]
    {
      hide ClosesOK;
      BusyNew(handlers, k);
      handlers := handlers[k := Want(Open)];
      AcceptedCloses(k);
    }

    twostate lemma AcceptedCloses(k: Key)
      requires old(ClosesOK()) && k !in old(handlers) && handlers == old(handlers)[k := Want(Open)]
      requires closes == old(closes) && connections == old(connections) && dropped == old(dropped) && refused == old(refused) && raced == old(raced)
      ensures ClosesOK()
    {
      forall j | j in handlers
        ensures CloseOK(j)
      {
        if j != k {
          assert old(CloseOK(j));
        }
      }
    }

    method LockMutex(k: Key)
      requires Valid() && mutex == Free && k in handlers && (handlers[k].Want? || handlers[k].WantDrop?)
      modifies this`handlers, this`mutex
      ensures Valid() && mutex == Held(k)
      ensures handlers == old(handlers)[k := if old(handlers)[k].WantDrop? then LockedDrop else Locked(old(handlers)[k].kind)]
    {
      hide Valid;
      Here(k);
      handlers := handlers[k := if handlers[k].WantDrop? then LockedDrop else Locked(handlers[k].kind)];
      mutex := Held(k);
      Moved(k);
    }

    method Register(k: Key)
      requires Valid() && k in handlers && handlers[k] == Locked(Open)
      modifies this`handlers, this`mutex, this`connections, this`busyCount
      ensures Valid() && handlers == old(handlers)[k := Ready(Open)] && connections == old(connections) + {k}
      ensures mutex == Free && busyCount == old(busyCount) + 1
    {
      hide Valid;
      Here(k);
      busyCount := busyCount + 1;
      connections := connections + {k};
      mutex := Free;
      handlers := handlers[k := Ready(Open)];
      Moved(k);
    }

    method CountPacket(k: Key)
      requires Valid() && k in handlers && handlers[k] == Locked(Packet)
      modifies this`handlers, this`mutex, this`busyCount
      ensures Valid() && handlers == old(handlers)[k := Ready(Packet)] && mutex == Free && busyCount == old(busyCount) + 1
    {
      hide Valid;
      Here(k);
      busyCount := busyCount + 1;
      mutex := Free;
      handlers := handlers[k := Ready(Packet)];
      Moved(k);
    }

    /** A connection that was dropped in the meantime is not closed again. */
    method CheckRegistered(k: Key)
      requires Valid() && k in handlers && handlers[k] == Locked(Close)
      modifies this`handlers, this`mutex
      ensures Valid() && handlers == old(handlers)[k := if k in connections then Checked else Gone]
      ensures mutex == if k in connections then old(mutex) else Free
    {
      hide Valid;
      Here(k);
      if k !in connections {
        mutex := Free;
        handlers := handlers[k := Gone];
        Moved(k);
        return;
      }
      handlers := handlers[k := Checked];
      Moved(k);
    }

    method Unregister(k: Key)
      requires Valid() && k in handlers && handlers[k] == Checked
      modifies this`handlers, this`mutex, this`connections, this`busyCount
      ensures Valid() && handlers == old(handlers)[k := Ready(Close)] && connections == old(connections) - {k}
      ensures mutex == Free && busyCount == old(busyCount) + 1
    {
      hide Valid;
      Here(k);
      busyCount := busyCount + 1;
      connections := connections - {k};
      mutex := Free;
      handlers := handlers[k := Ready(Close)];
      Moved(k);
    }

    method Drop(k: Key)
      requires Valid() && k in handlers && handlers[k] == LockedDrop
      modifies this`handlers, this`mutex, this`connections, this`refused
      ensures Valid() && handlers == old(handlers)[k := Gone] && connections == old(connections) - {k} && mutex == Free
      ensures refused == old(refused) + {k}
    {
      hide Valid;
      Here(k);
      refused := refused + {k};
      connections := connections - {k};
      mutex := Free;
      handlers := handlers[k := Gone];
      Moved(k);
    }

    /** The section a handler runs with the mutex held; the closing one checks first. */
    method RunSection(k: Key)
      requires Valid() && k in handlers && HoldsLock(handlers[k])
      modifies this`handlers, this`mutex, this`connections, this`busyCount, this`refused
      ensures Valid()
      ensures refused == old(refused) + if old(handlers)[k] == LockedDrop then {k} else {}
    {
      hide Valid;
      match handlers[k] {
        case Locked(Open) => Register(k);
        case Locked(Packet) => CountPacket(k);
        case Locked(Close) => CheckRegistered(k);
        case Checked => Unregister(k);
        case LockedDrop => Drop(k);
      }
    }

    /** The call goes to the client of this moment; there is one. */
    method ForwardCall(k: Key)
      requires Valid() && k in handlers && handlers[k].Ready?
      modifies this`handlers, this`closes
      ensures Valid() && client.Some? && mutex != Down
      ensures handlers == old(handlers)[k := Calling(old(handlers)[k].kind, client.value)]
      ensures closes == if old(handlers)[k].kind == Close then old(closes) + multiset{k} else old(closes)
    {
      hide Valid;
      Here(k);
      var kind := handlers[k].kind;
      if kind == Close {
        closes := closes + multiset{k};
      }
      handlers := handlers[k := Calling(kind, client.value)];
      Moved(k);
    }

    method ReturnCall(k: Key, ok: bool)
      requires Valid() && k in handlers && handlers[k].Calling?
      modifies this`handlers
      ensures Valid() && handlers == old(handlers)[k := Returned(old(handlers)[k].kind, ok)]
    {
      hide Valid;
      Here(k);
      handlers := handlers[k := Returned(handlers[k].kind, ok)];
      Moved(k);
    }

    method FinishCall(k: Key)
      requires Valid() && k in handlers && handlers[k].Returned?
      modifies this`handlers, this`busyCount
      ensures Valid() && busyCount == old(busyCount) - 1 >= 0
      ensures handlers == old(handlers)[k := AfterCall(old(handlers)[k].kind, old(handlers)[k].ok)]
    {
      hide Valid;
      Here(k);
      busyCount := busyCount - 1;
      handlers := handlers[k := AfterCall(handlers[k].kind, handlers[k].ok)];
      Moved(k);
    }

    method ReadConnection(k: Key, ok: bool)
      requires Valid() && k in handlers && handlers[k].Reading?
      modifies this`handlers
      ensures Valid() && handlers == old(handlers)[k := Want(if ok then Packet else Close)]
    {
      hide Valid;
      Here(k);
      handlers := handlers[k := Want(if ok then Packet else Close)];
      Moved(k);
    }

    // ---------- The hand-over

    method LockForShutdown()
      requires Valid() && mutex == Free
      modifies this`mutex
      ensures Valid() && mutex == Draining
    {
      hide ClosesOK;
      mutex := Draining;
    }

    /** From here until the waiter connects no call is under way. */
    method ReturnFromShutdown(uuid: string)
      requires Valid() && mutex == Draining && busyCount == 0
      modifies this`mutex, this`frontendUuid
      ensures Valid() && mutex == Down && frontendUuid == if integrated then old(frontendUuid) else uuid
    {
      hide ClosesOK;
      mutex := Down;
      if !integrated {
        frontendUuid := uuid;
      }
    }

    method MarkReady()
      requires Valid()
      modifies this`backendReady
      ensures Valid() && backendReady
    {
      hide LockOK, CallsOK, ClosesOK;
      backendReady := true;
    }

    /** waitForBackend, once the new backend is ready: the only place where the client is replaced. */
    method ConnectClient()
      requires Valid() && mutex == Down && backendReady
      modifies this`mutex, this`client, this`backendReady
      ensures Valid() && mutex == Free && client != old(client) && client.Some? && !backendReady && old(busyCount) == 0
    {
      hide ClosesOK;
      NoCalls();
      backendReady := false;
      client := Some(if client.Some? then client.value + 1 else 1);
      mutex := Free;
    }

    lemma NoCalls()
      requires CallsOK() && mutex == Down
      ensures forall k :: k in handlers ==> !Counted(handlers[k])
    {
      forall k | k in handlers && Counted(handlers[k])
        ensures false
      {
        IsBusy(handlers, k);
      }
    }

    method Reset()
      requires Valid()
      modifies this`connections, this`dropped, this`raced
      ensures Valid() && connections == {} && dropped == old(dropped) + old(connections)
      ensures raced == old(raced) + set k | k in old(connections) && handlers[k].Checked?
    {
      hide LockOK, CallsOK;
      ghost var hit := set k | k in connections && handlers[k].Checked?;
      raced := raced + hit;
      dropped := dropped + connections;
      connections := {};
      forall k | k in handlers
        ensures CloseOK(k)
      {
        assert old(CloseOK(k));
      }
    }

    /** A new backend asks whether its saved state is current; otherwise all connections are dropped. */
    method CheckState(uuid: string) returns (busy: bool, reload: bool)
      requires Valid()
      modifies this`connections, this`dropped, this`raced
      ensures Valid()
      ensures busy == (mutex == Free) && reload == (!busy && uuid == frontendUuid != "")
      ensures connections == if busy || uuid == frontendUuid then old(connections) else {}
      ensures dropped == old(dropped) + (old(connections) - connections)
      ensures raced == old(raced) + if busy || uuid == frontendUuid then {} else set k | k in old(connections) && handlers[k].Checked?
      ensures !(mutex.Held? && handlers[mutex.by_].Checked?) ==> raced == old(raced)
    {
      hide CallsOK, CloseOK;
      if mutex == Free {
        return true, false;
      }
      if uuid != frontendUuid {
        Reset();
        return false, false;
      }
      return false, uuid != "";
    }

    // ---------- Runs

    /** One step; an action that cannot happen now changes nothing. */
    method Step(a: Action)
      requires Valid()
      modifies this
      ensures Valid()
      ensures client != old(client) ==> old(mutex) == Down && old(busyCount) == 0
      ensures old(mutex) == Down && mutex == Down ==> closes == old(closes)
      ensures !(a.VerifyState? && old(mutex.Held?)) ==> raced == old(raced)
      // A reset drops all connections or none, and only a reset drops any.
      ensures a.VerifyState? ==> connections == if old(mutex) == Free || a.uuid == frontendUuid then old(connections) else {}
      ensures dropped == old(dropped) + if a.VerifyState? then old(connections) - connections else {}
      ensures refused == old(refused) + if a.Section? && a.k in old(handlers) && old(handlers)[a.k] == LockedDrop then {a.k} else {}
    {
      hide Valid, LockOK, CallsOK, ClosesOK;
      match a {
        case Accept(k) => if k !in handlers { AcceptConnection(k); }
        case Lock(k) => if mutex == Free && k in handlers && (handlers[k].Want? || handlers[k].WantDrop?) { LockMutex(k); }
        case Section(k) => if k in handlers && HoldsLock(handlers[k]) { RunSection(k); }
        case Forward(k) => if k in handlers && handlers[k].Ready? { ForwardCall(k); }
        case Return(k, ok) => if k in handlers && handlers[k].Calling? { ReturnCall(k, ok); }
        case Finish(k) => if k in handlers && handlers[k].Returned? { FinishCall(k); }
        case Read(k, ok) => if k in handlers && handlers[k].Reading? { ReadConnection(k, ok); }
        case BeginShutdown => if mutex == Free { LockForShutdown(); }
        case EndShutdown(uuid) => if mutex == Draining && busyCount == 0 { ReturnFromShutdown(uuid); }
        case BackendReady => MarkReady();
        case Connect => if mutex == Down && backendReady { ConnectClient(); }
        case VerifyState(uuid) => var _, _ := CheckState(uuid);
      }
    }

    /** Every run: while the backend is down no call is under way, and calls never outlive their client. */
    static method Run(integrated: bool, actions: seq<Action>) returns (f: Frontend)
      ensures f.Valid()
      ensures f.mutex == Down ==> forall k :: k in f.handlers ==> !Counted(f.handlers[k])
      ensures forall k :: k in f.handlers && f.handlers[k].Calling? ==> f.client == Some(f.handlers[k].client)
      ensures forall k :: f.closes[k] <= 1
      ensures forall k :: k in f.dropped && f.closes[k] > 0 ==> k in f.raced
      ensures forall k :: k in f.raced && f.handlers[k] == Gone ==> k in f.dropped && f.closes[k] == 1
      ensures forall k :: k in f.handlers && Registered(f.handlers[k]) ==> (k in f.connections <==> k !in f.dropped)
      ensures forall k :: k in f.handlers && f.handlers[k] == Gone ==> f.closes[k] == 1 || k in f.dropped || k in f.refused
      ensures forall k :: k in f.refused ==> f.closes[k] == 0
    {
      f := new Frontend(integrated);
      for i := 0 to |actions|
        invariant f.Valid() && fresh(f)
      {
        f.Step(actions[i]);
      }
      f.RunFacts();
    }

    lemma RunFacts()
      requires Valid()
      ensures mutex == Down ==> forall k :: k in handlers ==> !Counted(handlers[k])
      ensures forall k :: closes[k] <= 1
      ensures forall k :: k in dropped && closes[k] > 0 ==> k in raced
      ensures forall k :: k in raced && handlers[k] == Gone ==> k in dropped && closes[k] == 1
      ensures forall k :: k in handlers && Registered(handlers[k]) ==> (k in connections <==> k !in dropped)
      ensures forall k :: k in handlers && handlers[k] == Gone ==> closes[k] == 1 || k in dropped || k in refused
      ensures forall k :: k in refused ==> closes[k] == 0
    {
      if mutex == Down {
        NoCalls();
      }
      forall k
        ensures closes[k] <= 1 && (k in dropped && closes[k] > 0 ==> k in raced)
      {
        if k in handlers {
          assert CloseOK(k);
        }
      }
      forall k | k in raced && handlers[k] == Gone
        ensures k in dropped && closes[k] == 1
      {
        assert CloseOK(k);
      }
      forall k | k in handlers
        ensures Registered(handlers[k]) ==> (k in connections <==> k !in dropped)
        ensures handlers[k] == Gone ==> closes[k] == 1 || k in dropped || k in refused
        ensures k in refused ==> closes[k] == 0
      {
        assert CloseOK(k);
      }
    }

    /** A connection that was opened and is about to be closed, in its closing section. */
    static method OpenUntilCheck(k: Key) returns (f: Frontend)
      ensures fresh(f) && f.Valid() && f.frontendUuid == "" && f.closes == multiset{}
      ensures k in f.handlers && f.handlers[k] == Checked && k in f.connections && f.mutex == Held(k)
    {
      hide Frontend.Valid, Frontend.LockOK, Frontend.CallsOK, Frontend.ClosesOK, Busy;
      f := Connected();
      f.AcceptConnection(k);
      f.LockMutex(k);
      f.Register(k);
      f.ForwardCall(k);
      f.ReturnCall(k, true);
      f.FinishCall(k);
      f.ReadConnection(k, false);
      f.LockMutex(k);
      f.CheckRegistered(k);
    }

    static method Connected() returns (f: Frontend)
      ensures fresh(f) && f.Valid() && f.frontendUuid == "" && f.closes == multiset{} && f.handlers == map[] && f.mutex == Free
    {
      hide Frontend.Valid, Frontend.LockOK, Frontend.CallsOK, Frontend.ClosesOK;
      f := new Frontend(false);
      f.MarkReady();
      f.ConnectClient();
    }

    /** A reset that lands between a handler's check and its removal is not seen: the dropped connection is closed. */
    static method DroppedAndClosed(k: Key) returns (f: Frontend)
      ensures f.Valid() && k in f.dropped && f.closes[k] == 1
    {
      hide Frontend.Valid, Frontend.LockOK, Frontend.CallsOK, Frontend.ClosesOK, Busy;
      f := OpenUntilCheck(k);
      var _, _ := f.CheckState("not the current state");
      f.Unregister(k);
      f.ForwardCall(k);
    }
  }
}
