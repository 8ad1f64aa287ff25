/** Bookkeeping of the opaque handles the plugins issue: which were issued, which were
    handed back (in order), and which the manager still holds. */
module Ledger {
  import opened SecurityTypes
  import opened Handshake

  ghost predicate Distinct(s: seq<nat>)
  {
    forall i, j | 0 <= i < j < |s| :: s[i] != s[j]
  }

  ghost function Elements(s: seq<nat>): set<nat>
  {
    set x | x in s
  }

  /** A duplicate-free sequence has as many elements as its set. */
  lemma {:induction false} DistinctCardinality(s: seq<nat>)
    requires Distinct(s)
    ensures |Elements(s)| == |s|
  {
    if s != [] {
      var t := s[..|s| - 1];
      assert Distinct(t);
      DistinctCardinality(t);
      assert s == t + [s[|s| - 1]];
      assert Elements(s) == Elements(t) + {s[|s| - 1]};
      assert s[|s| - 1] !in Elements(t);
    }
  }

  /** Issued handles and the return calls made for them. */
  datatype HandleLedger = HandleLedger(issued: set<nat>, returned: seq<nat>)

  /** Every issued handle is exactly one of: still held, or returned exactly once. */
  ghost predicate Balanced(l: HandleLedger, held: set<nat>)
  {
    && Distinct(l.returned)
    && held !! Elements(l.returned)
    && held + Elements(l.returned) == l.issued
  }

  function Issue(l: HandleLedger, h: nat): HandleLedger
  {
    l.(issued := l.issued + {h})
  }

  function Return(l: HandleLedger, h: nat): HandleLedger
  {
    l.(returned := l.returned + [h])
  }

  lemma IssueFresh(l: HandleLedger, held: set<nat>, h: nat)
    requires Balanced(l, held) && h !in l.issued
    ensures Balanced(Issue(l, h), held + {h})
  {
  }

  lemma ReturnHeld(l: HandleLedger, held: set<nat>, h: nat)
    requires Balanced(l, held) && h in held
    ensures Balanced(Return(l, h), held - {h})
  {
    assert Elements(l.returned + [h]) == Elements(l.returned) + {h};
  }

  /** Once nothing is held, each issued handle has been returned exactly once. */
  lemma AllReturned(l: HandleLedger)
    requires Balanced(l, {})
    ensures Elements(l.returned) == l.issued && |l.returned| == |l.issued|
    ensures forall h | h in l.issued :: multiset(l.returned)[h] == 1
  {
    DistinctCardinality(l.returned);
    forall h | h in l.issued ensures multiset(l.returned)[h] == 1 {
      DistinctOccursOnce(l.returned, h);
    }
  }

  lemma {:induction false} DistinctOccursOnce(s: seq<nat>, h: nat)
    requires Distinct(s) && h in s
    ensures multiset(s)[h] == 1
  {
    var t := s[..|s| - 1];
    assert s == t + [s[|s| - 1]];
    assert Distinct(t);
    if s[|s| - 1] == h {
      assert h !in t;
    } else {
      DistinctOccursOnce(t, h);
    }
  }

  /** A ledger `l'` that completes `l`: the same handles issued, the returns made in `l`
      kept as they were, and nothing issued left outstanding. */
  ghost predicate Completes(l: HandleLedger, l': HandleLedger)
  {
    && l'.issued == l.issued
    && l.returned <= l'.returned
    && Balanced(l', {})
  }

  /** Completing a ledger returns exactly the handles that were held, each once. */
  lemma CompletionReturnsHeld(l: HandleLedger, l': HandleLedger, held: set<nat>)
    requires Balanced(l, held) && Completes(l, l')
    ensures Elements(l'.returned[|l.returned|..]) == held
    ensures Distinct(l'.returned[|l.returned|..])
  {
    var n := |l.returned|;
    var t := l'.returned[n..];
    assert l'.returned == l.returned + t;
    assert Elements(l'.returned) == Elements(l.returned) + Elements(t);
    forall i, j | 0 <= i < j < |t| ensures t[i] != t[j] {
      assert t[i] == l'.returned[n + i] && t[j] == l'.returned[n + j];
    }
  }

  /** The remote identity handles the participant states hold. */
  ghost function RemoteIdentities(m: map<Guid, AuthState>): set<nat>
  {
    set k | k in m :: m[k].identityHandle
  }

  ghost function HandshakeOf(st: AuthState): set<nat>
  {
    if st.handshakeHandle.Some? then {st.handshakeHandle.value} else {}
  }

  /** The handshake handles the participant states hold. */
  ghost function Handshakes(m: map<Guid, AuthState>): set<nat>
  {
    set k, h | k in m && h in HandshakeOf(m[k]) :: h
  }

  /** No two participant states share a handle. */
  ghost predicate Unshared(m: map<Guid, AuthState>)
  {
    forall k, k' | k in m && k' in m && k != k' ::
      m[k].identityHandle != m[k'].identityHandle && HandshakeOf(m[k]) !! HandshakeOf(m[k'])
  }

  /** What the states hold, split into one key and the rest. */
  lemma Split(m: map<Guid, AuthState>, k: Guid)
    requires Unshared(m) && k in m
    ensures RemoteIdentities(m) == RemoteIdentities(m - {k}) + {m[k].identityHandle}
    ensures m[k].identityHandle !in RemoteIdentities(m - {k})
    ensures Handshakes(m) == Handshakes(m - {k}) + HandshakeOf(m[k])
    ensures HandshakeOf(m[k]) !! Handshakes(m - {k})
    ensures Unshared(m - {k})
  {
    var r := m - {k};
    assert RemoteIdentities(m) == RemoteIdentities(r) + {m[k].identityHandle} by {
      forall x | x in RemoteIdentities(m) ensures x in RemoteIdentities(r) + {m[k].identityHandle} {
        var k' :| k' in m && m[k'].identityHandle == x;
        if k' != k { assert k' in r; }
      }
    }
    assert Handshakes(m) == Handshakes(r) + HandshakeOf(m[k]) by {
      forall x | x in Handshakes(m) ensures x in Handshakes(r) + HandshakeOf(m[k]) {
        var k', h :| k' in m && h in HandshakeOf(m[k']) && h == x;
        if k' != k { assert k' in r; }
      }
    }
  }

  /** What the states hold after a key not yet present is added. */
  lemma Extend(m: map<Guid, AuthState>, k: Guid, st: AuthState)
    requires k !in m
    ensures RemoteIdentities(m[k := st]) == RemoteIdentities(m) + {st.identityHandle}
    ensures Handshakes(m[k := st]) == Handshakes(m) + HandshakeOf(st)
    ensures Unshared(m) && st.identityHandle !in RemoteIdentities(m) && HandshakeOf(st) !! Handshakes(m)
            ==> Unshared(m[k := st])
  {
    var r := m[k := st];
    assert RemoteIdentities(r) == RemoteIdentities(m) + {st.identityHandle} by {
      forall x | x in RemoteIdentities(r) ensures x in RemoteIdentities(m) + {st.identityHandle} {
        var k' :| k' in r && r[k'].identityHandle == x;
        if k' != k { assert k' in m; }
      }
      forall x | x in RemoteIdentities(m) ensures x in RemoteIdentities(r) {
        var k' :| k' in m && m[k'].identityHandle == x;
        assert r[k'] == m[k'];
      }
      assert r[k].identityHandle == st.identityHandle;
    }
    assert Handshakes(r) == Handshakes(m) + HandshakeOf(st) by {
      forall x | x in Handshakes(r) ensures x in Handshakes(m) + HandshakeOf(st) {
        var k', h :| k' in r && h in HandshakeOf(r[k']) && h == x;
        if k' != k { assert k' in m; }
      }
      forall x | x in Handshakes(m) ensures x in Handshakes(r) {
        var k', h :| k' in m && h in HandshakeOf(m[k']) && h == x;
        assert r[k'] == m[k'];
      }
      forall x | x in HandshakeOf(st) ensures x in Handshakes(r) {
        assert x in HandshakeOf(r[k]);
      }
    }
    if Unshared(m) && st.identityHandle !in RemoteIdentities(m) && HandshakeOf(st) !! Handshakes(m) {
      forall k1, k2 | k1 in r && k2 in r && k1 != k2
        ensures r[k1].identityHandle != r[k2].identityHandle && HandshakeOf(r[k1]) !! HandshakeOf(r[k2])
      {
        if k1 == k {
          assert r[k2].identityHandle in RemoteIdentities(m);
          assert forall h | h in HandshakeOf(m[k2]) :: h in Handshakes(m);
        } else if k2 == k {
          assert r[k1].identityHandle in RemoteIdentities(m);
          assert forall h | h in HandshakeOf(m[k1]) :: h in Handshakes(m);
        }
      }
    }
  }

  /** What the states hold after the state of a present key is replaced. */
  lemma Replace(m: map<Guid, AuthState>, k: Guid, st: AuthState)
    requires Unshared(m) && k in m
    ensures RemoteIdentities(m[k := st]) == RemoteIdentities(m - {k}) + {st.identityHandle}
    ensures Handshakes(m[k := st]) == Handshakes(m - {k}) + HandshakeOf(st)
    ensures st.identityHandle !in RemoteIdentities(m - {k}) && HandshakeOf(st) !! Handshakes(m - {k})
            ==> Unshared(m[k := st])
  {
    Split(m, k);
    assert m[k := st] == (m - {k})[k := st];
    Extend(m - {k}, k, st);
  }

  /** Replacing a state by one holding the same handles changes nothing that is held. */
  lemma SameHandles(m: map<Guid, AuthState>, k: Guid, st: AuthState)
    requires Unshared(m) && k in m
    requires st.identityHandle == m[k].identityHandle && st.handshakeHandle == m[k].handshakeHandle
    ensures RemoteIdentities(m[k := st]) == RemoteIdentities(m)
    ensures Handshakes(m[k := st]) == Handshakes(m)
    ensures Unshared(m[k := st])
  {
    Split(m, k);
    Replace(m, k, st);
  }

  ghost function LocalHeld(o: Option<nat>): set<nat>
  {
    if o.Some? then {o.value} else {}
  }

  /** The two ledgers account for what the participant states `m` and the local identity
      `local` hold. */
  ghost predicate HeldBy(m: map<Guid, AuthState>, local: Option<nat>, identities: HandleLedger, handshakes: HandleLedger)
  {
    && Unshared(m)
    && LocalHeld(local) !! RemoteIdentities(m)
    && Balanced(identities, LocalHeld(local) + RemoteIdentities(m))
    && Balanced(handshakes, Handshakes(m))
  }

  /** The handshake handle `st` holds, handed back if there is one. */
  function ReturnHandshake(l: HandleLedger, st: AuthState): HandleLedger
  {
    if st.handshakeHandle.Some? then Return(l, st.handshakeHandle.value) else l
  }

  /** Handing back both handles of one participant state keeps the rest accounted for. */
  lemma ReturnState(m: map<Guid, AuthState>, k: Guid, local: Option<nat>, identities: HandleLedger, handshakes: HandleLedger)
    requires HeldBy(m, local, identities, handshakes) && k in m
    ensures HeldBy(m - {k}, local, Return(identities, m[k].identityHandle), ReturnHandshake(handshakes, m[k]))
  {
    Split(m, k);
    var held := LocalHeld(local) + RemoteIdentities(m);
    ReturnHeld(identities, held, m[k].identityHandle);
    assert held - {m[k].identityHandle} == LocalHeld(local) + RemoteIdentities(m - {k});
    if m[k].handshakeHandle.Some? {
      ReturnHeld(handshakes, Handshakes(m), m[k].handshakeHandle.value);
      assert Handshakes(m) - {m[k].handshakeHandle.value} == Handshakes(m - {k});
    }
  }

  function ReturnLocal(l: HandleLedger, local: Option<nat>): HandleLedger
  {
    if local.Some? then Return(l, local.value) else l
  }

  /** Midway through handing back the handles of a map of states: `identities` and
      `handshakes` extend the starting ledgers and account for the states still in `rest`. */
  ghost predicate Returning(identities0: HandleLedger, handshakes0: HandleLedger, rest: map<Guid, AuthState>,
                            local: Option<nat>, identities: HandleLedger, handshakes: HandleLedger)
  {
    && HeldBy(rest, local, identities, handshakes)
    && identities.issued == identities0.issued && identities0.returned <= identities.returned
    && handshakes.issued == handshakes0.issued && handshakes0.returned <= handshakes.returned
  }

  lemma ReturnNext(identities0: HandleLedger, handshakes0: HandleLedger, rest: map<Guid, AuthState>, k: Guid,
                   local: Option<nat>, identities: HandleLedger, handshakes: HandleLedger)
    requires Returning(identities0, handshakes0, rest, local, identities, handshakes) && k in rest
    ensures Returning(identities0, handshakes0, rest - {k}, local,
                      Return(identities, rest[k].identityHandle), ReturnHandshake(handshakes, rest[k]))
  {
    ReturnState(rest, k, local, identities, handshakes);
  }

  /** Once no state is left, handing back the local identity completes both ledgers. */
  lemma ReturnLast(identities0: HandleLedger, handshakes0: HandleLedger, local: Option<nat>,
                   identities: HandleLedger, handshakes: HandleLedger)
    requires Returning(identities0, handshakes0, map[], local, identities, handshakes)
    ensures Completes(identities0, ReturnLocal(identities, local)) && Completes(handshakes0, handshakes)
  {
    assert RemoteIdentities(map[]) == {} && Handshakes(map[]) == {};
    if local.Some? {
      ReturnHeld(identities, LocalHeld(local), local.value);
    }
  }
}
