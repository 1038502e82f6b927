/** The whole delivery path as a sequence of atomic steps: WebSocket sessions
    opening and failing, and link sends. A step is either a `/ws` handler
    registering after its upgrade, the same handler deregistering after a read
    error, or one `POST /links` request. */
module Server {
  import opened Wrappers
  import opened Links
  import Registry
  import DeviceId
  import Router

  /** A `/ws` handler past its upgrade: the user it runs for, the device key
      parsed from its `device_id` query string, and its connection. The handler
      parses the same captured string again when it deregisters; parsing is a
      pure function, so that is the key computed on registration. */
  datatype Session<C> = Session(user: int, device: int, conn: C)

  /** The registry key a session registers and deregisters under. */
  function Key<C>(s: Session<C>): (int, int)
  {
    (s.user, s.device)
  }

  datatype State<C> = State(
    table: Registry.Table<C>,
    sessions: seq<Session<C>>,            // handlers still in their read loop
    delivered: seq<Router.Delivery<C>>    // every `WriteJSON` made so far
  )

  datatype Event<C> =
    | Connect(user: int, deviceQuery: string, upgraded: Option<C>)   // None: the upgrade failed
    | ReadError(index: nat)                                           // the session at this index sees a read error
    | Send(user: int, body: Option<Link>, stored: bool)

  function Init<C>(): State<C>
  {
    State(map[], [], [])
  }

  function Step<C>(s: State<C>, e: Event<C>): (r: State<C>)
    ensures e.Connect? && e.upgraded.None? ==> r == s
    ensures !e.Send? ==> r.delivered == s.delivered
    ensures e.Send? ==> r.table == s.table && r.sessions == s.sessions
    ensures e.Send? ==> s.delivered <= r.delivered && |r.delivered| <= |s.delivered| + 1
    ensures e.ReadError? && e.index >= |s.sessions| ==> r == s
    // a successful upgrade registers the parsed key and starts the session
    ensures e.Connect? && e.upgraded.Some? ==>
              var device := DeviceId.ParseDeviceID(e.deviceQuery);
              && Registry.Lookup(r.table, e.user, device) == Some(e.upgraded.value)
              && (forall u, d :: (u, d) != (e.user, device) ==> Registry.Lookup(r.table, u, d) == Registry.Lookup(s.table, u, d))
              && r.sessions == s.sessions + [Session(e.user, device, e.upgraded.value)]
    // a read error deregisters the failing session's key and ends that session
    ensures e.ReadError? && e.index < |s.sessions| ==>
              var key := Key(s.sessions[e.index]);
              && Registry.Lookup(r.table, key.0, key.1).None?
              && (forall u, d :: (u, d) != key ==> Registry.Lookup(r.table, u, d) == Registry.Lookup(s.table, u, d))
              && r.sessions == s.sessions[..e.index] + s.sessions[e.index + 1..]
    // a send pushes exactly when the link is stored and the target key is registered
    ensures e.Send? ==>
              (|r.delivered| == |s.delivered| + 1 <==>
                 e.body.Some? && e.stored && Registry.Lookup(s.table, e.user, e.body.value.toDeviceId).Some?)
    ensures e.Send? && |r.delivered| == |s.delivered| + 1 ==>
              r.delivered[|s.delivered|] == Router.Delivery(Registry.Lookup(s.table, e.user, e.body.value.toDeviceId).value, e.body.value.(userId := e.user))
  {
    match e
    case Connect(user, query, upgraded) =>
      (match upgraded
       case None => s
       case Some(conn) =>
         var session := Session(user, DeviceId.ParseDeviceID(query), conn);
         var key := Key(session);
         State(Registry.Register(s.table, key.0, key.1, conn), s.sessions + [session], s.delivered))
    case ReadError(i) =>
      if i < |s.sessions| then
        var key := Key(s.sessions[i]);
        State(Registry.Unregister(s.table, key.0, key.1), s.sessions[..i] + s.sessions[i + 1..], s.delivered)
      else
        s
    case Send(user, body, stored) =>
      var outcome := Router.SendLink(s.table, user, body, stored);
      match outcome.write
      case Some(w) => State(s.table, s.sessions, s.delivered + [w])
      case None => s
  }

  function Run<C>(s: State<C>, events: seq<Event<C>>): State<C>
    decreases |events|
  {
    if |events| == 0 then s else Run(Step(s, events[0]), events[1..])
  }

  /** Some live session owns key (user, device) with connection `conn`. */
  ghost predicate Live<C>(sessions: seq<Session<C>>, user: int, device: int, conn: C)
  {
    exists i :: 0 <= i < |sessions| && Key(sessions[i]) == (user, device) && sessions[i].conn == conn
  }

  /** The registry has no empty rows, and every connection in it belongs to a
      session that is still running under that key. */
  ghost predicate Inv<C>(s: State<C>)
  {
    && Registry.NoEmptyRows(s.table)
    && forall u, d :: Registry.Lookup(s.table, u, d).Some? ==> Live(s.sessions, u, d, Registry.Lookup(s.table, u, d).value)
  }

  lemma InitInv<C>()
    ensures Inv(Init<C>())
  {
  }

  /** Removing session `i` keeps every other session's entry alive. */
  lemma LiveAfterRemoval<C>(sessions: seq<Session<C>>, i: nat, user: int, device: int, conn: C)
    requires i < |sessions|
    requires Live(sessions, user, device, conn)
    requires (user, device) != Key(sessions[i])
    ensures Live(sessions[..i] + sessions[i + 1..], user, device, conn)
  {
    var rest := sessions[..i] + sessions[i + 1..];
    var j :| 0 <= j < |sessions| && Key(sessions[j]) == (user, device) && sessions[j].conn == conn;
    if j < i {
      assert rest[j] == sessions[j];
    } else {
      assert j > i;
      assert rest[j - 1] == sessions[j];
    }
  }

  /** Registration after a successful upgrade keeps the invariant: the new
      entry belongs to the session just added, the rest to their old owners. */
  lemma ConnectPreservesInv<C>(s: State<C>, user: int, query: string, conn: C)
    requires Inv(s)
    ensures var r := Step(s, Connect(user, query, Some(conn)));
            && Registry.Lookup(r.table, user, DeviceId.ParseDeviceID(query)) == Some(conn)
            && r.sessions[|s.sessions|] == Session(user, DeviceId.ParseDeviceID(query), conn)
    ensures var r := Step(s, Connect(user, query, Some(conn)));
            forall u, d :: (u, d) != (user, DeviceId.ParseDeviceID(query)) ==> Registry.Lookup(r.table, u, d) == Registry.Lookup(s.table, u, d)
    ensures Inv(Step(s, Connect(user, query, Some(conn))))
  {
    var r := Step(s, Connect(user, query, Some(conn)));
    var session := Session(user, DeviceId.ParseDeviceID(query), conn);
    var n := |s.sessions|;
    Registry.RegisterKeepsRowsNonEmpty(s.table, user, session.device, conn);
    assert r.sessions == s.sessions + [session];
    forall u, d | Registry.Lookup(r.table, u, d).Some?
      ensures Live(r.sessions, u, d, Registry.Lookup(r.table, u, d).value)
    {
      if (u, d) == Key(session) {
        assert r.sessions[n] == session;
      } else {
        var j :| 0 <= j < n && Key(s.sessions[j]) == (u, d) && s.sessions[j].conn == Registry.Lookup(s.table, u, d).value;
        assert r.sessions[j] == s.sessions[j];
      }
    }
  }

  /** Deregistration after a read error keeps the invariant: the removed
      session's key is gone from the registry, and every other entry's owner
      is still running. */
  lemma ReadErrorPreservesInv<C>(s: State<C>, i: nat)
    requires Inv(s)
    requires i < |s.sessions|
    ensures Inv(Step(s, ReadError(i)))
  {
    var r := Step(s, ReadError(i));
    Registry.UnregisterKeepsRowsNonEmpty(s.table, Key(s.sessions[i]).0, Key(s.sessions[i]).1);
    forall u, d | Registry.Lookup(r.table, u, d).Some?
      ensures Live(r.sessions, u, d, Registry.Lookup(r.table, u, d).value)
    {
      LiveAfterRemoval(s.sessions, i, u, d, Registry.Lookup(s.table, u, d).value);
    }
  }

  lemma StepPreservesInv<C>(s: State<C>, e: Event<C>)
    requires Inv(s)
    ensures Inv(Step(s, e))
  {
    match e
    case Connect(user, query, upgraded) =>
      if upgraded.Some? {
        ConnectPreservesInv(s, user, query, upgraded.value);
      }
    case ReadError(i) =>
      if i < |s.sessions| {
        ReadErrorPreservesInv(s, i);
      }
    case Send(_, _, _) =>
  }

  lemma {:induction false} RunPreservesInv<C>(s: State<C>, events: seq<Event<C>>)
    requires Inv(s)
    ensures Inv(Run(s, events))
    decreases |events|
  {
    if |events| > 0 {
      StepPreservesInv(s, events[0]);
      RunPreservesInv(Step(s, events[0]), events[1..]);
    }
  }

  /** Every reachable state satisfies the invariant. */
  lemma ReachableInv<C>(events: seq<Event<C>>)
    ensures Inv(Run(Init<C>(), events))
  {
    InitInv<C>();
    RunPreservesInv(Init<C>(), events);
  }

  /** A send writes only to the connection of a session that is still running,
      registered for the sender under the link's target device. */
  lemma SendReachesLiveSession<C>(s: State<C>, user: int, body: Option<Link>, stored: bool)
    requires Inv(s)
    ensures var r := Step(s, Send(user, body, stored));
            |r.delivered| == |s.delivered| + 1 ==>
              && body.Some? && stored
              && Live(s.sessions, user, body.value.toDeviceId, r.delivered[|s.delivered|].conn)
  {
  }

  /** A session that opens and then fails on a free key leaves the registry
      and the session list exactly as they were: both steps use the same key. */
  lemma ConnectThenCloseRestores<C>(s: State<C>, user: int, query: string, conn: C)
    requires Inv(s)
    requires Registry.Lookup(s.table, user, DeviceId.ParseDeviceID(query)).None?
    ensures var afterOpen := Step(s, Connect(user, query, Some(conn)));
            var closed := Step(afterOpen, ReadError(|s.sessions|));
            closed.table == s.table && closed.sessions == s.sessions
  {
    var afterOpen := Step(s, Connect(user, query, Some(conn)));
    var n := |s.sessions|;
    assert afterOpen.sessions[n] == Session(user, DeviceId.ParseDeviceID(query), conn);
    assert afterOpen.sessions[..n] + afterOpen.sessions[n + 1..] == s.sessions;
    Registry.RegisterThenUnregister(s.table, user, DeviceId.ParseDeviceID(query), conn);
  }

  /** Deregistration does not check ownership. When a second session claims
      the same key and then the first one fails, the entry is gone although the
      second session is still running, so links sent to it go nowhere
      (`SendWithoutEntryPushesNothing`). */
  lemma StaleCloseOrphansNewerSession<C>(s: State<C>, user: int, query: string, first: C, second: C)
    ensures var device := DeviceId.ParseDeviceID(query);
            var s1 := Step(s, Connect(user, query, Some(first)));
            var s2 := Step(s1, Connect(user, query, Some(second)));
            var s3 := Step(s2, ReadError(|s.sessions|));
            && Registry.Lookup(s2.table, user, device) == Some(second)
            && Session(user, device, second) in s3.sessions
            && Registry.Lookup(s3.table, user, device).None?
  {
  }

  /** A `device_id` with no leading integer is not rejected: once the upgrade
      succeeds the session registers under device 0. */
  lemma MalformedDeviceIdRegistersAsZero<C>(s: State<C>, user: int, query: string, conn: C)
    requires |query| == 0 || (!DeviceId.IsDigit(query[0]) && !DeviceId.IsSpace(query[0]) && query[0] != '+' && query[0] != '-')
    ensures var r := Step(s, Connect(user, query, Some(conn)));
            && Registry.Lookup(r.table, user, 0) == Some(conn)
            && Session(user, 0, conn) in r.sessions
  {
    DeviceId.NoLeadingIntegerIsZero(query);
    var r := Step(s, Connect(user, query, Some(conn)));
    assert r.sessions[|s.sessions|] == Session(user, 0, conn);
  }

  /** A send to a device with no registry entry is stored, answered with
      success, and pushes nothing. */
  lemma SendWithoutEntryPushesNothing<C>(s: State<C>, user: int, link: Link)
    requires Registry.Lookup(s.table, user, link.toDeviceId).None?
    ensures Router.SendLink(s.table, user, Some(link), true).response.status == Router.StatusOK
    ensures Step(s, Send(user, Some(link), true)) == s
  {
  }

  /** User 1 opens `/ws?device_id=2`, then sends a link from device 1 to
      device 2: exactly one record reaches that connection, carrying the
      submitted fields with user 1. */
  lemma ConnectThenSendScenario<C>(conn: C, id: int, createdAt: string)
    ensures var link := Link(id, 0, 1, 2, "https://example.com", createdAt);
            var events := [Connect(1, "2", Some(conn)), Send(1, Some(link), true)];
            Run(Init<C>(), events).delivered == [Router.Delivery(conn, link.(userId := 1))]
  {
    DeviceId.ParseFormatted(2, "");
    assert DeviceId.FormatInt(2) + "" == "2";
    var link := Link(id, 0, 1, 2, "https://example.com", createdAt);
    var events := [Connect(1, "2", Some(conn)), Send(1, Some(link), true)];
    var s1 := Step(Init<C>(), events[0]);
    assert Registry.Lookup(s1.table, 1, 2) == Some(conn);
    var s2 := Step(s1, events[1]);
    assert s2.delivered == [Router.Delivery(conn, link.(userId := 1))];
    assert events[1..][1..] == [];
    assert Run(s1, events[1..]) == Run(s2, []);
  }
}
