/**
 * Every directory operation keeps `Tables.Valid()`: no index entry is left pointing at an
 * account that does not point back, and no tombstone names a live number.
 */
module AccountInvariant {
  import opened Common
  import opened AccountTables

  lemma CreatePreservesValid(t: Tables, a: Account, now: int, reclaimTtl: nat)
    requires t.Valid()
    ensures Create(t, a, now, reclaimTtl).tables.Valid()
  {
    var accountFree := a.uuid !in t.accounts || t.accounts[a.uuid].number == a.number;
    var numberFree := a.number !in t.numbers || t.numbers[a.number] == a.uuid;
    var pniFree := a.pni !in t.pnis || t.pnis[a.pni] == a.uuid;
    if accountFree && numberFree && pniFree {
      var r := Create(t, a, now, reclaimTtl).tables;
      forall u | u in r.accounts
        ensures r.accounts[u].number in r.numbers && r.numbers[r.accounts[u].number] == u
        ensures r.accounts[u].pni in r.pnis && r.pnis[r.accounts[u].pni] == u
      {
        if u != a.uuid {
          assert t.accounts[u].number != a.number;
          assert t.accounts[u].pni != a.pni;
        }
      }
    } else if accountFree {
      var holder := if !numberFree then t.numbers[a.number] else t.pnis[a.pni];
      if holder in t.accounts {
        ReclaimPreservesValid(t, holder, a, now, reclaimTtl);
      }
    }
  }

  lemma ReclaimPreservesValid(t: Tables, holder: Uuid, a: Account, now: int, reclaimTtl: nat)
    requires t.Valid() && holder in t.accounts
    ensures Reclaim(t, holder, a, now, reclaimTtl).tables.Valid()
  {
    var s := Reclaim(t, holder, a, now, reclaimTtl);
    if s.result.Ok? {
      var r := s.tables;
      var existing := t.accounts[holder];
      assert r.numbers == t.numbers && r.pnis == t.pnis && r.deleted == t.deleted;
      assert r.accounts == t.accounts[holder := s.caller];
      assert s.caller.uuid == holder && s.caller.number == existing.number && s.caller.pni == existing.pni;
      SameIdentityKeepsValid(t, holder, s.caller, r);
    }
  }

  /** Replacing a record by one with the same identifier, number and PNI keeps the invariant. */
  lemma SameIdentityKeepsValid(t: Tables, holder: Uuid, c: Account, r: Tables)
    requires t.Valid() && holder in t.accounts
    requires c.uuid == holder && c.number == t.accounts[holder].number && c.pni == t.accounts[holder].pni
    requires r == t.(accounts := t.accounts[holder := c], usernames := r.usernames)
    ensures r.Valid()
  {
  }

  lemma UpdatePreservesValid(t: Tables, a: Account, raced: Option<BackendException>)
    requires t.Valid()
    ensures Update(t, a, raced).tables.Valid()
  {
  }

  lemma DeletePreservesValid(t: Tables, uuid: Uuid)
    requires t.Valid()
    ensures Delete(t, uuid).Valid()
  {
    if uuid in t.accounts {
      var a := t.accounts[uuid];
      var r := Delete(t, uuid);
      forall u | u in r.accounts
        ensures r.accounts[u].number in r.numbers && r.numbers[r.accounts[u].number] == u
        ensures r.accounts[u].pni in r.pnis && r.pnis[r.accounts[u].pni] == u
      {
        assert t.numbers[t.accounts[u].number] == u;
        assert t.pnis[t.accounts[u].pni] == u;
      }
    }
  }

  lemma ChangeNumberPreservesValid(t: Tables, a: Account, number: E164, pni: Uuid, displaced: Option<Uuid>)
    requires t.Valid()
    ensures ChangeNumber(t, a, number, pni, displaced).tables.Valid()
  {
    if VersionMatches(t, a) && number !in t.numbers && pni !in t.pnis {
      var stored := t.accounts[a.uuid];
      var r := ChangeNumber(t, a, number, pni, displaced).tables;
      forall u | u in r.accounts
        ensures r.accounts[u].number in r.numbers && r.numbers[r.accounts[u].number] == u
        ensures r.accounts[u].pni in r.pnis && r.pnis[r.accounts[u].pni] == u
      {
        if u != a.uuid {
          assert t.numbers[t.accounts[u].number] == u;
          assert t.pnis[t.accounts[u].pni] == u;
        }
      }
    }
  }

  lemma ReservePreservesValid(t: Tables, a: Account, hash: Bytes, ttl: nat, now: int)
    requires t.Valid()
    ensures ReserveUsernameHash(t, a, hash, ttl, now).tables.Valid()
  {
  }

  lemma ConfirmPreservesValid(t: Tables, a: Account, hash: Bytes, encryptedUsername: Bytes, freshHandle: Uuid, now: int)
    requires t.Valid()
    ensures ConfirmUsernameHash(t, a, hash, encryptedUsername, freshHandle, now).tables.Valid()
  {
  }

  lemma ClearPreservesValid(t: Tables, a: Account)
    requires t.Valid()
    ensures ClearUsernameHash(t, a).tables.Valid()
  {
  }
}
