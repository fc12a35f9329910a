/**
 * What the account directory promises across operations: account creation and
 * re-registration, the version rules of `update`, deletion and its tombstone,
 * number changes, and the reserve / confirm / clear life cycle of username hashes.
 * Every lemma is stated over the transition functions of `AccountTables`, which the
 * methods of `AccountStore.Accounts` are proved to implement.
 */
module AccountProperties {
  import opened Common
  import opened AccountTables
  import AccountInvariant

  // ------------------------------------------------------------------ create

  /** Creating an account on a free number installs both constraints and drops any tombstone. */
  lemma CreateOnFreeNumber(t: Tables, a: Account, now: int, reclaimTtl: nat)
    requires t.Valid()
    requires a.uuid !in t.accounts && a.number !in t.numbers && a.pni !in t.pnis
    ensures var s := Create(t, a, now, reclaimTtl);
      && s.result == Ok(true)
      && s.tables.Valid()
      && GetByAccountIdentifier(s.tables, a.uuid) == Some(a)
      && GetByE164(s.tables, a.number) == Some(a)
      && GetByPhoneNumberIdentifier(s.tables, a.pni) == Some(a)
      && FindRecentlyDeletedAccountIdentifier(s.tables, a.number).None?
  {
    AccountInvariant.CreatePreservesValid(t, a, now, reclaimTtl);
  }

  /** Creating the identical account again succeeds with `true` and changes nothing. */
  lemma CreateIsIdempotent(t: Tables, a: Account, now: int, reclaimTtl: nat)
    requires t.Valid()
    requires a.uuid !in t.accounts && a.number !in t.numbers && a.pni !in t.pnis
    ensures var s := Create(t, a, now, reclaimTtl);
      Create(s.tables, a, now, reclaimTtl) == Step(s.tables, Ok(true), a)
  {
    var s := Create(t, a, now, reclaimTtl);
    var again := Create(s.tables, a, now, reclaimTtl);
    assert s.tables.accounts[a.uuid := a] == s.tables.accounts;
    assert s.tables.numbers[a.number := a.uuid] == s.tables.numbers;
    assert s.tables.pnis[a.pni := a.uuid] == s.tables.pnis;
    assert s.tables.deleted - {a.number} == s.tables.deleted;
  }

  /**
   * Re-creating a live account under its own identifier and number with a new, free PNI
   * moves its PNI constraint: the old PNI stops resolving and the new one resolves to
   * the new record.
   */
  lemma RecreateWithNewPni(t: Tables, a: Account, now: int, reclaimTtl: nat)
    requires t.Valid()
    requires a.uuid in t.accounts && t.accounts[a.uuid].number == a.number
    requires a.pni != t.accounts[a.uuid].pni && a.pni !in t.pnis
    ensures var previous := t.accounts[a.uuid];
            var s := Create(t, a, now, reclaimTtl);
      && s.result == Ok(true)
      && s.tables.Valid()
      && previous.pni !in s.tables.pnis
      && GetByPhoneNumberIdentifier(s.tables, previous.pni).None?
      && GetByPhoneNumberIdentifier(s.tables, a.pni) == Some(a)
      && GetByE164(s.tables, a.number) == Some(a)
  {
    AccountInvariant.CreatePreservesValid(t, a, now, reclaimTtl);
    assert t.numbers[a.number] == a.uuid;
  }

  /** An identifier that already holds another number cannot be created again. */
  lemma CreateWithTakenIdentifierFails(t: Tables, a: Account, now: int, reclaimTtl: nat)
    requires a.uuid in t.accounts && t.accounts[a.uuid].number != a.number
    ensures Create(t, a, now, reclaimTtl) == Step(t, Err(IllegalArgument), a)
  {
  }

  // ------------------------------------------------------------ re-registration

  /** The state of an existing account's username before it is re-registered. */
  datatype UsernameStatus = NoUsername | ReservedOnly | ReservedWithSavedLink | ConfirmedUsername

  function StatusOf(r: Account): UsernameStatus {
    if r.usernameHash.Some? then ConfirmedUsername
    else if r.reservedUsernameHash.Some? && r.usernameLinkHandle.Some? then ReservedWithSavedLink
    else if r.reservedUsernameHash.Some? then ReservedOnly
    else NoUsername
  }

  /** The registration `a` is new, and its number belongs to a live account whose username entry is its own. */
  ghost predicate ReRegistration(t: Tables, a: Account) {
    && t.Valid()
    && a.uuid !in t.accounts
    && a.number in t.numbers
    && var existing := t.accounts[t.numbers[a.number]];
       existing.usernameHash.Some? && existing.usernameHash.value in t.usernames
       ==> t.usernames[existing.usernameHash.value].owner == existing.uuid
  }

  /**
   * Re-registering a number held by a live account returns `false` and keeps the first
   * identifier, number and PNI; a confirmed username becomes a reservation of the same
   * hash with the same link handle, and the hash and encrypted username are cleared.
   */
  lemma ReRegistrationKeepsIdentity(t: Tables, a: Account, now: int, reclaimTtl: nat)
    requires ReRegistration(t, a)
    ensures var existing := t.accounts[t.numbers[a.number]];
            var s := Create(t, a, now, reclaimTtl);
      && s.result == Ok(false)
      && s.tables.Valid()
      && s.caller.uuid == existing.uuid && s.caller.number == a.number && s.caller.pni == existing.pni
      && GetByE164(s.tables, a.number) == Some(s.caller)
      && s.caller.usernameHash.None? && s.caller.encryptedUsername.None?
      && (existing.usernameHash.Some? ==>
            && s.caller.reservedUsernameHash == existing.usernameHash
            && s.caller.usernameLinkHandle == existing.usernameLinkHandle)
  {
    var holder := t.numbers[a.number];
    assert t.accounts[holder].uuid == holder;
    AccountInvariant.CreatePreservesValid(t, a, now, reclaimTtl);
  }

  /**
   * After re-registration over a confirmed username, confirming that same hash again
   * succeeds and restores it with the link handle it had before.
   */
  lemma ReclaimedUsernameRestored(t: Tables, a: Account, encryptedUsername: Bytes, freshHandle: Uuid,
                                  now: int, reclaimTtl: nat)
    requires ReRegistration(t, a)
    requires t.accounts[t.numbers[a.number]].usernameHash.Some?
    requires t.accounts[t.numbers[a.number]].usernameLinkHandle.Some?
    ensures var existing := t.accounts[t.numbers[a.number]];
            var h := existing.usernameHash.value;
            var s1 := Create(t, a, now, reclaimTtl);
            var s2 := ConfirmUsernameHash(s1.tables, s1.caller, h, encryptedUsername, freshHandle, now);
      && s2.result.Ok?
      && s2.caller.usernameHash == Some(h)
      && s2.caller.usernameLinkHandle == existing.usernameLinkHandle
      && s2.caller.encryptedUsername == Some(encryptedUsername)
      && s2.caller.reservedUsernameHash.None?
      && GetByUsernameHash(s2.tables, h) == Some(s2.tables.accounts[existing.uuid])
      && s2.tables.accounts[existing.uuid].usernameLinkHandle == existing.usernameLinkHandle
  {
    var holder := t.numbers[a.number];
    assert t.accounts[holder].uuid == holder;
    var s1 := Create(t, a, now, reclaimTtl);
    assert s1 == Reclaim(t, holder, a, now, reclaimTtl);
    assert VersionMatches(s1.tables, s1.caller);
  }

  /**
   * Re-registration followed by a confirmation reuses the earlier link handle exactly
   * when the account had a confirmed username or a reservation with a saved link; in
   * every case the account ends with a hash, an encrypted username and a link handle,
   * and no reservation.
   */
  lemma ReRegistrationLinkReuse(t: Tables, a: Account, hash: Bytes, encryptedUsername: Bytes,
                                freshHandle: Uuid, now: int, reclaimTtl: nat)
    requires ReRegistration(t, a)
    requires var existing := t.accounts[t.numbers[a.number]];
      && (existing.usernameHash.Some? ==> existing.usernameLinkHandle.Some?)
      && Some(freshHandle) != existing.usernameLinkHandle
      && (hash in t.usernames ==>
            t.usernames[hash].owner == existing.uuid
            && (!t.usernames[hash].Confirmed() || existing.usernameHash == Some(hash)))
    ensures var existing := t.accounts[t.numbers[a.number]];
            var s1 := Create(t, a, now, reclaimTtl);
            var s2 := ConfirmUsernameHash(s1.tables, s1.caller, hash, encryptedUsername, freshHandle, now);
      && s2.result.Ok?
      && s2.caller.usernameHash == Some(hash)
      && s2.caller.encryptedUsername == Some(encryptedUsername)
      && s2.caller.usernameLinkHandle.Some?
      && s2.caller.reservedUsernameHash.None?
      && (s2.caller.usernameLinkHandle == existing.usernameLinkHandle
          <==> StatusOf(existing) in {ReservedWithSavedLink, ConfirmedUsername})
  {
    var holder := t.numbers[a.number];
    var existing := t.accounts[holder];
    assert existing.uuid == holder;
    var s1 := Create(t, a, now, reclaimTtl);
    assert s1 == Reclaim(t, holder, a, now, reclaimTtl);
    assert s1.result.Ok? && s1.caller.uuid == holder;
    assert VersionMatches(s1.tables, s1.caller);
    assert Confirmable(s1.tables, hash, holder, now);
  }

  // ------------------------------------------------------------------ update

  /**
   * `update` succeeds exactly when the caller's version is the stored one, and then
   * advances both; a stale version is a contested lock, an unknown account a failed
   * condition. The constraint tables are never touched.
   */
  lemma UpdateVersionRules(t: Tables, a: Account)
    ensures var s := Update(t, a, None);
      && (s.result.Ok? <==> VersionMatches(t, a))
      && (s.result.Ok? ==>
            && s.caller.version == a.version + 1
            && s.tables.accounts[a.uuid].version == s.caller.version
            && s.tables.numbers == t.numbers && s.tables.pnis == t.pnis
            && s.tables.usernames == t.usernames && s.tables.deleted == t.deleted
            && var r := s.tables.accounts[a.uuid];
               && r.discoverable == a.discoverable && r.data == a.data
               && r.usernameLinkHandle == a.usernameLinkHandle && r.encryptedUsername == a.encryptedUsername
               && r.number == t.accounts[a.uuid].number && r.pni == t.accounts[a.uuid].pni
               && r.usernameHash == t.accounts[a.uuid].usernameHash)
      && (a.uuid in t.accounts && !VersionMatches(t, a) ==> s.result == Err(ContestedOptimisticLock))
      && (a.uuid !in t.accounts ==> s.result == Err(ConditionalCheckFailed))
  {
  }

  /**
   * `update` stores the caller's username link: a newly minted handle (held by no other
   * account) then resolves to this account alone, carrying its new encrypted username,
   * and a previous handle that no other account holds stops resolving (both stop when
   * the link is cleared).
   */
  lemma UpdateMovesUsernameLink(t: Tables, a: Account, previous: Uuid)
    requires t.Valid() && VersionMatches(t, a)
    requires a.usernameLinkHandle != Some(previous)
    requires forall u | u in t.accounts && u != a.uuid :: t.accounts[u].usernameLinkHandle != Some(previous)
    requires a.usernameLinkHandle.Some? ==>
      forall u | u in t.accounts && u != a.uuid :: t.accounts[u].usernameLinkHandle != a.usernameLinkHandle
    ensures var s := Update(t, a, None);
      && !LinkResolves(s.tables, previous)
      && (a.usernameLinkHandle.Some? ==>
            && LinkHeldOnlyBy(s.tables, a.usernameLinkHandle.value, a.uuid)
            && s.tables.accounts[a.uuid].encryptedUsername == a.encryptedUsername)
  {
    var s := Update(t, a, None);
    assert s.tables.accounts[a.uuid].usernameLinkHandle == a.usernameLinkHandle;
    forall u | u in s.tables.accounts && u != a.uuid
      ensures s.tables.accounts[u] == t.accounts[u]
    {
    }
  }

  /** A newly created account updated twice has advanced its version by two. */
  lemma TwoUpdatesAfterCreate(t: Tables, a: Account, now: int, reclaimTtl: nat)
    requires t.Valid()
    requires a.uuid !in t.accounts && a.number !in t.numbers && a.pni !in t.pnis
    ensures var s1 := Create(t, a, now, reclaimTtl);
            var s2 := Update(s1.tables, s1.caller, None);
            var s3 := Update(s2.tables, s2.caller, None);
      && s3.result.Ok?
      && s3.caller.version == a.version + 2
      && GetByAccountIdentifier(s3.tables, a.uuid).value.version == a.version + 2
  {
    CreateOnFreeNumber(t, a, now, reclaimTtl);
  }

  /** `e` wrapped in `n` layers of CompletionException. */
  function Wrap(n: nat, e: BackendException): BackendException {
    if n == 0 then e else CompletionException(Wrap(n - 1, e))
  }

  lemma {:induction false} UnwrapWrap(n: nat, e: BackendException)
    ensures Unwrap(Wrap(n, e)) == Unwrap(e)
  {
    if n > 0 {
      UnwrapWrap(n - 1, e);
    }
  }

  /**
   * A transaction conflict raised by the backend, however deeply wrapped, is reported
   * as a contested optimistic lock and leaves the tables and the caller as they were.
   */
  lemma ConflictIsContested(t: Tables, a: Account, n: nat)
    ensures Update(t, a, Some(Wrap(n, TransactionConflictException))) == Step(t, Err(ContestedOptimisticLock), a)
  {
    UnwrapWrap(n, TransactionConflictException);
  }

  // ------------------------------------------------------------------ delete

  /**
   * Deleting removes the record and its number and PNI constraints, leaves a tombstone
   * number -> identifier, and leaves every other account and its constraints as they were.
   */
  lemma DeleteRemovesAccount(t: Tables, uuid: Uuid)
    requires t.Valid() && uuid in t.accounts
    ensures var a := t.accounts[uuid];
            var d := Delete(t, uuid);
      && d.Valid()
      && GetByAccountIdentifier(d, uuid).None?
      && GetByE164(d, a.number).None?
      && GetByPhoneNumberIdentifier(d, a.pni).None?
      && a.number !in d.numbers && a.pni !in d.pnis
      && FindRecentlyDeletedAccountIdentifier(d, a.number) == Some(uuid)
      && (forall u | u in t.accounts && u != uuid ::
            && GetByAccountIdentifier(d, u) == Some(t.accounts[u])
            && GetByE164(d, t.accounts[u].number) == Some(t.accounts[u])
            && GetByPhoneNumberIdentifier(d, t.accounts[u].pni) == Some(t.accounts[u]))
  {
    AccountInvariant.DeletePreservesValid(t, uuid);
    var a := t.accounts[uuid];
    forall u | u in t.accounts && u != uuid
      ensures t.accounts[u].number != a.number && t.accounts[u].pni != a.pni
    {
      assert t.numbers[t.accounts[u].number] == u;
      assert t.pnis[t.accounts[u].pni] == u;
    }
  }

  /** A new account on a deleted account's number is a fresh user and clears the tombstone. */
  lemma RecreateAfterDelete(t: Tables, uuid: Uuid, b: Account, now: int, reclaimTtl: nat)
    requires t.Valid() && uuid in t.accounts
    requires b.number == t.accounts[uuid].number && b.uuid !in t.accounts && b.pni !in t.pnis
    ensures var s := Create(Delete(t, uuid), b, now, reclaimTtl);
      && s.result == Ok(true)
      && GetByE164(s.tables, b.number) == Some(b)
      && GetByPhoneNumberIdentifier(s.tables, b.pni) == Some(b)
      && FindRecentlyDeletedAccountIdentifier(s.tables, b.number).None?
  {
    DeleteRemovesAccount(t, uuid);
    CreateOnFreeNumber(Delete(t, uuid), b, now, reclaimTtl);
  }

  // ------------------------------------------------------------- change number

  /**
   * A successful number change moves the account to the new number and PNI, frees the
   * old ones, and leaves as tombstone of the old number exactly the displaced account
   * given (none when none was given).
   */
  lemma ChangeNumberMovesAccount(t: Tables, a: Account, number: E164, pni: Uuid, displaced: Option<Uuid>)
    requires t.Valid() && VersionMatches(t, a)
    requires number !in t.numbers && pni !in t.pnis
    ensures var original := t.accounts[a.uuid];
            var s := ChangeNumber(t, a, number, pni, displaced);
      && s.result.Ok?
      && s.tables.Valid()
      && GetByE164(s.tables, original.number).None?
      && GetByPhoneNumberIdentifier(s.tables, original.pni).None?
      && GetByE164(s.tables, number) == Some(s.tables.accounts[a.uuid])
      && GetByPhoneNumberIdentifier(s.tables, pni) == Some(s.tables.accounts[a.uuid])
      && s.tables.accounts[a.uuid].number == number && s.tables.accounts[a.uuid].pni == pni
      && s.caller.number == number && s.caller.pni == pni && s.caller.version == a.version + 1
      && FindRecentlyDeletedAccountIdentifier(s.tables, original.number) == displaced
  {
    AccountInvariant.ChangeNumberPreservesValid(t, a, number, pni, displaced);
    assert t.accounts[a.uuid].number in t.numbers;
  }

  /** A target number or PNI that is already held cancels the whole transaction. */
  lemma ChangeNumberConflict(t: Tables, a: Account, number: E164, pni: Uuid, displaced: Option<Uuid>)
    requires number in t.numbers || pni in t.pnis
    ensures ChangeNumber(t, a, number, pni, displaced) == Step(t, Err(TransactionCanceled), a)
  {
  }

  // --------------------------------------------------------------- usernames

  /**
   * A reservation sets only the reserved hash: the confirmed hash is untouched, the
   * entry carries an expiry, and the hash does not resolve to the account.
   */
  lemma ReserveSetsOnlyReservation(t: Tables, a: Account, hash: Bytes, ttl: nat, now: int)
    requires VersionMatches(t, a)
    requires hash !in t.usernames || t.usernames[hash].ExpiredAt(now)
    ensures var s := ReserveUsernameHash(t, a, hash, ttl, now);
      && s.result.Ok?
      && s.caller.reservedUsernameHash == Some(hash)
      && s.caller.usernameHash == a.usernameHash
      && s.tables.accounts[a.uuid].usernameHash == t.accounts[a.uuid].usernameHash
      && s.tables.usernames[hash] == UsernameEntry(a.uuid, Some(now + ttl))
      && GetByUsernameHash(s.tables, hash).None?
  {
  }

  /**
   * Until an unconfirmed reservation has strictly expired, nobody can reserve the hash
   * (the holder cannot re-reserve it either) and nobody but the holder can confirm it.
   */
  lemma ReservationBlocks(t: Tables, b: Account, hash: Bytes, ttl: nat, encryptedUsername: Bytes,
                          freshHandle: Uuid, now: int)
    requires hash in t.usernames && !t.usernames[hash].Confirmed()
    requires now <= t.usernames[hash].expiresAt.value
    ensures ReserveUsernameHash(t, b, hash, ttl, now) == Step(t, Err(ContestedOptimisticLock), b)
    ensures b.uuid != t.usernames[hash].owner ==>
      ConfirmUsernameHash(t, b, hash, encryptedUsername, freshHandle, now) == Step(t, Err(ContestedOptimisticLock), b)
  {
  }

  /** A confirmed hash can be neither reserved nor confirmed again, by its owner or by anyone else. */
  lemma ConfirmedHashIsTaken(t: Tables, b: Account, hash: Bytes, ttl: nat, encryptedUsername: Bytes,
                             freshHandle: Uuid, now: int)
    requires hash in t.usernames && t.usernames[hash].Confirmed()
    ensures ReserveUsernameHash(t, b, hash, ttl, now) == Step(t, Err(ContestedOptimisticLock), b)
    ensures ConfirmUsernameHash(t, b, hash, encryptedUsername, freshHandle, now) == Step(t, Err(ContestedOptimisticLock), b)
  {
  }

  /**
   * Once a reservation has expired another account can reserve and confirm the hash;
   * the hash then resolves to that account and every other account is refused.
   */
  lemma ExpiredReservationCanBeTaken(t: Tables, b: Account, c: Account, hash: Bytes, ttl: nat, ttl2: nat,
                                     encryptedUsername: Bytes, freshHandle: Uuid, now: int, later: int)
    requires VersionMatches(t, b)
    requires hash in t.usernames && t.usernames[hash].ExpiredAt(now)
    requires c.uuid != b.uuid
    ensures var s1 := ReserveUsernameHash(t, b, hash, ttl, now);
            var s2 := ConfirmUsernameHash(s1.tables, s1.caller, hash, encryptedUsername, freshHandle, now);
      && s1.result.Ok? && s2.result.Ok?
      && GetByUsernameHash(s2.tables, hash) == Some(s2.tables.accounts[b.uuid])
      && ReserveUsernameHash(s2.tables, c, hash, ttl2, later).result == Err(ContestedOptimisticLock)
      && ConfirmUsernameHash(s2.tables, c, hash, encryptedUsername, freshHandle, later).result == Err(ContestedOptimisticLock)
  {
    var s1 := ReserveUsernameHash(t, b, hash, ttl, now);
    assert VersionMatches(s1.tables, s1.caller);
    assert Confirmable(s1.tables, hash, b.uuid, now);
  }

  /**
   * The availability check agrees with confirmation: for an account whose version is
   * current, the hash is available to its token exactly when confirming it succeeds.
   */
  lemma AvailableIffConfirmSucceeds(t: Tables, a: Account, hash: Bytes, encryptedUsername: Bytes,
                                    freshHandle: Uuid, now: int)
    requires VersionMatches(t, a)
    ensures UsernameHashAvailable(t, Some(a.uuid), hash, now)
        <==> ConfirmUsernameHash(t, a, hash, encryptedUsername, freshHandle, now).result.Ok?
  {
  }

  /**
   * After a reservation, and until it lapses, the hash is available to the reserving
   * account's token and to no other token (nor to a caller presenting none).
   */
  lemma AvailabilityAfterReserve(t: Tables, a: Account, hash: Bytes, ttl: nat, now: int,
                                 later: int, token: Option<Uuid>)
    requires VersionMatches(t, a)
    requires hash !in t.usernames || t.usernames[hash].ExpiredAt(now)
    requires later <= now + ttl
    ensures var s := ReserveUsernameHash(t, a, hash, ttl, now);
      && s.result.Ok?
      && (UsernameHashAvailable(s.tables, token, hash, later) <==> token == Some(a.uuid))
  {
    var s := ReserveUsernameHash(t, a, hash, ttl, now);
    assert s.tables.usernames[hash] == UsernameEntry(a.uuid, Some(now + ttl));
  }

  /** After a confirmation the hash is available to no token, at any time. */
  lemma AvailabilityAfterConfirm(t: Tables, a: Account, hash: Bytes, encryptedUsername: Bytes,
                                 freshHandle: Uuid, now: int, later: int, token: Option<Uuid>)
    requires VersionMatches(t, a) && Confirmable(t, hash, a.uuid, now)
    ensures var s := ConfirmUsernameHash(t, a, hash, encryptedUsername, freshHandle, now);
      && s.result.Ok?
      && !UsernameHashAvailable(s.tables, token, hash, later)
  {
    var s := ConfirmUsernameHash(t, a, hash, encryptedUsername, freshHandle, now);
    assert s.tables.usernames[hash] == UsernameEntry(a.uuid, None);
  }

  /**
   * Confirming an unclaimed hash, or one the caller reserved, clears the reservation,
   * sets the hash and leaves a permanent (expiry-less) entry that resolves to the caller.
   */
  lemma ConfirmClaimsHash(t: Tables, a: Account, hash: Bytes, encryptedUsername: Bytes, freshHandle: Uuid, now: int)
    requires VersionMatches(t, a)
    requires hash !in t.usernames || (t.usernames[hash].owner == a.uuid && !t.usernames[hash].Confirmed())
    ensures var s := ConfirmUsernameHash(t, a, hash, encryptedUsername, freshHandle, now);
      && s.result.Ok?
      && s.caller.usernameHash == Some(hash)
      && s.caller.reservedUsernameHash.None?
      && s.caller.encryptedUsername == Some(encryptedUsername)
      && s.tables.usernames[hash] == UsernameEntry(a.uuid, None)
      && GetByUsernameHash(s.tables, hash) == Some(s.tables.accounts[a.uuid])
      && s.tables.accounts[a.uuid].usernameLinkHandle == s.caller.usernameLinkHandle
  {
  }

  /** A stale version refuses confirmation and leaves the caller's username state as it was. */
  lemma ConfirmVersionMismatch(t: Tables, a: Account, hash: Bytes, encryptedUsername: Bytes, freshHandle: Uuid, now: int)
    requires !VersionMatches(t, a)
    ensures ConfirmUsernameHash(t, a, hash, encryptedUsername, freshHandle, now) == Step(t, Err(ContestedOptimisticLock), a)
  {
  }

  /**
   * Switching from a confirmed hash `h1` to `h2` removes `h1`'s entry, and the old link
   * handle (held by no other account) no longer resolves; the new handle does.
   */
  lemma SwitchUsernameHash(t: Tables, a: Account, h1: Bytes, h2: Bytes, encryptedUsername: Bytes,
                           freshHandle: Uuid, now: int)
    requires t.Valid() && VersionMatches(t, a)
    requires a.usernameHash == Some(h1) && h1 != h2 && a.usernameLinkHandle.Some?
    requires h2 !in t.usernames || (t.usernames[h2].owner == a.uuid && !t.usernames[h2].Confirmed())
    requires Some(freshHandle) != a.usernameLinkHandle
    requires forall u | u in t.accounts && u != a.uuid :: t.accounts[u].usernameLinkHandle != a.usernameLinkHandle
    requires forall u | u in t.accounts :: t.accounts[u].usernameLinkHandle != Some(freshHandle)
    ensures var s := ConfirmUsernameHash(t, a, h2, encryptedUsername, freshHandle, now);
      && s.result.Ok?
      && h1 !in s.tables.usernames
      && GetByUsernameHash(s.tables, h1).None?
      && GetByUsernameHash(s.tables, h2) == Some(s.tables.accounts[a.uuid])
      && !LinkResolves(s.tables, a.usernameLinkHandle.value)
      && LinkHeldOnlyBy(s.tables, freshHandle, a.uuid)
      && s.tables.accounts[a.uuid].encryptedUsername == Some(encryptedUsername)
  {
    var s := ConfirmUsernameHash(t, a, h2, encryptedUsername, freshHandle, now);
    assert t.accounts[a.uuid].uuid == a.uuid;
    assert s.tables.accounts[a.uuid].usernameLinkHandle == Some(freshHandle);
    forall u | u in s.tables.accounts && u != a.uuid
      ensures s.tables.accounts[u] == t.accounts[u]
    {
    }
  }

  /** Clearing removes the entry, the hash, the link handle and the encrypted username. */
  lemma ClearRemovesUsername(t: Tables, a: Account)
    requires VersionMatches(t, a) && a.usernameHash.Some?
    ensures var s := ClearUsernameHash(t, a);
            var r := s.tables.accounts[a.uuid];
      && s.result.Ok?
      && a.usernameHash.value !in s.tables.usernames
      && GetByUsernameHash(s.tables, a.usernameHash.value).None?
      && r.usernameHash.None? && r.usernameLinkHandle.None? && r.encryptedUsername.None?
      && s.caller.usernameHash.None? && s.caller.usernameLinkHandle.None?
  {
  }

  /** Clearing without a username is a successful no-op. */
  lemma ClearWithoutUsername(t: Tables, a: Account)
    requires a.usernameHash.None?
    ensures ClearUsernameHash(t, a) == Step(t, Ok(()), a)
  {
  }

  /** Clearing with a stale version fails and the caller keeps its hash. */
  lemma ClearVersionMismatch(t: Tables, a: Account)
    requires a.usernameHash.Some? && !VersionMatches(t, a)
    ensures var s := ClearUsernameHash(t, a);
      s.result == Err(ContestedOptimisticLock) && s.tables == t && s.caller.usernameHash == a.usernameHash
  {
  }
}
