/** The process-wide presence registry: user id -> device id -> live connection.
    Each operation runs under the registry mutex, so it is modelled as one
    atomic step on an immutable two-level map. The connection handle is opaque. */
module Registry {
  import opened Wrappers

  type Table<C> = map<int, map<int, C>>

  /** The two-level `connections[user][device]` lookup with both `exists` checks. */
  function Lookup<C>(t: Table<C>, user: int, device: int): (r: Option<C>)
    ensures r.Some? <==> user in t && device in t[user]
    ensures r.Some? ==> r.value == t[user][device]
  {
    if user in t && device in t[user] then Some(t[user][device]) else None
  }

  /** Structural invariant: no user row is ever left empty. */
  ghost predicate NoEmptyRows<C>(t: Table<C>)
  {
    forall u :: u in t ==> |t[u]| > 0
  }

  /** Registration at session start: create the user row when it is absent, then
      write the device entry, overwriting whatever was stored there. */
  function Register<C>(t: Table<C>, user: int, device: int, conn: C): (r: Table<C>)
    ensures Lookup(r, user, device) == Some(conn)
    ensures forall u, d :: (u, d) != (user, device) ==> Lookup(r, u, d) == Lookup(t, u, d)
    ensures r.Keys == t.Keys + {user}
  {
    var row := if user in t then t[user] else map[];
    t[user := row[device := conn]]
  }

  /** Deregistration after a read error: delete the device entry (a no-op on a
      missing row), then drop the user row if it has no devices left. No check
      is made of which connection the entry holds. */
  function Unregister<C>(t: Table<C>, user: int, device: int): (r: Table<C>)
    ensures Lookup(r, user, device) == None
    ensures forall u, d :: (u, d) != (user, device) ==> Lookup(r, u, d) == Lookup(t, u, d)
    ensures r.Keys <= t.Keys
  {
    if user !in t then
      t
    else
      var row := t[user] - {device};
      if |row| == 0 then t - {user} else t[user := row]
  }

  /** Registration never leaves an empty row behind. */
  lemma RegisterKeepsRowsNonEmpty<C>(t: Table<C>, user: int, device: int, conn: C)
    requires NoEmptyRows(t)
    ensures NoEmptyRows(Register(t, user, device, conn))
  {
    var r := Register(t, user, device, conn);
    assert device in r[user];
  }

  /** Deregistration never leaves an empty row behind: it prunes the row it
      empties and touches no other. */
  lemma UnregisterKeepsRowsNonEmpty<C>(t: Table<C>, user: int, device: int)
    requires NoEmptyRows(t)
    ensures NoEmptyRows(Unregister(t, user, device))
  {
    var r := Unregister(t, user, device);
    forall u | u in r
      ensures |r[u]| > 0
    {
      if u != user {
        assert r[u] == t[u];
      }
    }
  }

  /** The user row survives deregistration exactly when the user has another
      device registered. */
  lemma UnregisterPrunes<C>(t: Table<C>, user: int, device: int)
    ensures user in Unregister(t, user, device) <==> exists d :: d != device && Lookup(t, user, d).Some?
  {
    var r := Unregister(t, user, device);
    if user in r {
      var row := t[user] - {device};
      assert r[user] == row;
      RowHasDevice(row);
      var d :| d in row;
      assert Lookup(t, user, d).Some?;
    }
    if exists d :: d != device && Lookup(t, user, d).Some? {
      var d :| d != device && Lookup(t, user, d).Some?;
      assert d in t[user] - {device};
    }
  }

  /** Deregistering a key that holds nothing leaves a well-formed registry
      unchanged. */
  lemma UnregisterAbsentIsNoOp<C>(t: Table<C>, user: int, device: int)
    requires NoEmptyRows(t)
    requires Lookup(t, user, device).None?
    ensures Unregister(t, user, device) == t
  {
    if user in t {
      assert t[user] - {device} == t[user];
    }
  }

  /** A row with a positive length has some device in it. */
  lemma RowHasDevice<V>(row: map<int, V>)
    requires |row| > 0
    ensures exists d :: d in row
  {
    if forall d :: d !in row {
      assert false;
    }
  }

  /** Reference view: the registry as one flat map keyed by (user, device). */
  ghost function Entries<C>(t: Table<C>): (m: map<(int, int), C>)
    ensures forall u, d :: (u, d) in m <==> Lookup(t, u, d).Some?
    ensures forall u, d :: (u, d) in m ==> Lookup(t, u, d) == Some(m[(u, d)])
  {
    var keys := set u, d | u in t && d in t[u] :: (u, d);
    map p | p in keys :: t[p.0][p.1]
  }

  /** Registering is a point update of the flat view. */
  lemma EntriesRegister<C>(t: Table<C>, user: int, device: int, conn: C)
    ensures Entries(Register(t, user, device, conn)) == Entries(t)[(user, device) := conn]
  {
    var after := Entries(Register(t, user, device, conn));
    var expected := Entries(t)[(user, device) := conn];
    forall p | p in after
      ensures p in expected && after[p] == expected[p]
    {
      assert Lookup(Register(t, user, device, conn), p.0, p.1).Some?;
    }
    forall p | p in expected
      ensures p in after
    {
      assert p == (user, device) || Lookup(t, p.0, p.1).Some?;
    }
    assert after.Keys == expected.Keys;
  }

  /** Unregistering is a point removal from the flat view. */
  lemma EntriesUnregister<C>(t: Table<C>, user: int, device: int)
    ensures Entries(Unregister(t, user, device)) == Entries(t) - {(user, device)}
  {
    var r := Unregister(t, user, device);
    var after := Entries(r);
    var expected := Entries(t) - {(user, device)};
    forall p | p in after
      ensures p in expected && after[p] == expected[p]
    {
      var (u, d) := p;
      assert Lookup(r, u, d) == Some(after[(u, d)]);
      assert (u, d) != (user, device);
      assert Lookup(t, u, d) == Some(after[(u, d)]);
    }
    forall p | p in expected
      ensures p in after
    {
      var (u, d) := p;
      assert (u, d) in Entries(t) && (u, d) != (user, device);
      assert Lookup(r, u, d).Some?;
    }
    assert after.Keys == expected.Keys;
  }

  /** Under the no-empty-row invariant the two-level layout is canonical: the
      flat view determines the table. */
  lemma EntriesDetermineTable<C>(a: Table<C>, b: Table<C>)
    requires NoEmptyRows(a) && NoEmptyRows(b)
    requires Entries(a) == Entries(b)
    ensures a == b
  {
    forall u | u in a
      ensures u in b
    {
      RowHasDevice(a[u]);
      var d :| d in a[u];
      assert Lookup(a, u, d).Some?;
    }
    forall u | u in b
      ensures u in a
    {
      RowHasDevice(b[u]);
      var d :| d in b[u];
      assert Lookup(b, u, d).Some?;
    }
    forall u | u in a
      ensures a[u] == b[u]
    {
      forall d | d in a[u]
        ensures d in b[u] && a[u][d] == b[u][d]
      {
        assert Lookup(a, u, d).Some?;
      }
      forall d | d in b[u]
        ensures d in a[u]
      {
        assert Lookup(b, u, d).Some?;
      }
    }
  }

  /** A registration that is later undone under the same key leaves the
      registry exactly as it was, provided the key was free beforehand. */
  lemma RegisterThenUnregister<C>(t: Table<C>, user: int, device: int, conn: C)
    requires NoEmptyRows(t)
    requires Lookup(t, user, device).None?
    ensures Unregister(Register(t, user, device, conn), user, device) == t
  {
    var row := if user in t then t[user] else map[];
    assert row[device := conn] - {device} == row;
    if user !in t {
      assert Register(t, user, device, conn) - {user} == t;
    }
  }

  /** Re-registering a key supersedes the earlier connection completely: the
      result is as if the first registration had never happened. */
  lemma RegisterOverwrites<C>(t: Table<C>, user: int, device: int, first: C, second: C)
    ensures Register(Register(t, user, device, first), user, device, second) == Register(t, user, device, second)
  {
    var row := if user in t then t[user] else map[];
    assert row[device := first][device := second] == row[device := second];
  }

  /** Unregistering twice is the same as unregistering once. */
  lemma UnregisterIdempotent<C>(t: Table<C>, user: int, device: int)
    ensures Unregister(Unregister(t, user, device), user, device) == Unregister(t, user, device)
  {
    var once := Unregister(t, user, device);
    if user in once {
      assert once[user] - {device} == once[user];
    }
  }
}
