/**
 * The account directory's tables as one value, and each directory operation as a
 * conditional, all-or-nothing transition of that value.
 *
 * Five tables: account records keyed by account identifier (ACI); the phone-number
 * constraint table (E.164 -> ACI); the phone-number-identifier constraint table
 * (PNI -> ACI); the username-hash table (hash -> ACI, with an expiry while the entry
 * is only a reservation); the deleted-accounts tombstones (E.164 -> ACI).
 *
 * Every operation that takes an `Account` also returns the caller's `Account` object
 * as the operation leaves it, because the directory mutates that object in place
 * (its version is advanced, its username fields are set).
 */
module AccountTables {
  import opened Common

  type Uuid = nat
  type E164 = string
  type Bytes = seq<bv8>

  /**
   * An account record. `uuid`, `number`, `pni`, `usernameHash`, `usernameLinkHandle` and
   * `version` are stored as attributes of their own; `reservedUsernameHash`,
   * `encryptedUsername`, `discoverable` and `data` (devices, keys and everything else)
   * travel in the serialized data attribute that conditional updates rewrite wholesale.
   */
  datatype Account = Account(
    uuid: Uuid,
    number: E164,
    pni: Uuid,
    version: nat,
    usernameHash: Option<Bytes>,
    reservedUsernameHash: Option<Bytes>,
    usernameLinkHandle: Option<Uuid>,
    encryptedUsername: Option<Bytes>,
    discoverable: bool,
    data: Bytes)

  /** A username-table entry: a reservation while it carries an expiry, a confirmed claim once it has none. */
  datatype UsernameEntry = UsernameEntry(owner: Uuid, expiresAt: Option<int>) {
    predicate Confirmed() { expiresAt.None? }
    /** The time-to-live has strictly elapsed: an entry expiring at `now` still blocks. */
    predicate ExpiredAt(now: int) { expiresAt.Some? && expiresAt.value < now }
  }

  datatype Tables = Tables(
    accounts: map<Uuid, Account>,
    numbers: map<E164, Uuid>,
    pnis: map<Uuid, Uuid>,
    usernames: map<Bytes, UsernameEntry>,
    deleted: map<E164, Uuid>)
  {
    /**
     * The consistency every operation keeps: records sit under their own identifier,
     * each live record's number and PNI constraints point back at it, each number and
     * PNI constraint belongs to a live record holding that number or PNI, and no
     * tombstone names a number that a live account holds.
     */
    ghost predicate Valid() {
      && (forall u | u in accounts :: accounts[u].uuid == u)
      && (forall u | u in accounts :: accounts[u].number in numbers && numbers[accounts[u].number] == u)
      && (forall u | u in accounts :: accounts[u].pni in pnis && pnis[accounts[u].pni] == u)
      && (forall n | n in numbers :: numbers[n] in accounts && accounts[numbers[n]].number == n)
      && (forall p | p in pnis :: pnis[p] in accounts && accounts[pnis[p]].pni == p)
      && (forall n | n in deleted :: n !in numbers)
    }
  }

  const Empty := Tables(map[], map[], map[], map[], map[])

  /** The failures the directory reports (the Java exceptions it throws). */
  datatype Error =
    | ContestedOptimisticLock
    | ConditionalCheckFailed
    | TransactionCanceled
    | IllegalArgument
    | NoSuchElement

  datatype Result<T> = Ok(value: T) | Err(error: Error)

  /** The tables after an operation, its outcome, and the caller's account object afterwards. */
  datatype Step<T> = Step(tables: Tables, result: Result<T>, caller: Account)

  /** The optimistic-lock condition: the record exists and holds the caller's version. */
  predicate VersionMatches(t: Tables, a: Account) {
    a.uuid in t.accounts && t.accounts[a.uuid].version == a.version
  }

  /** `stored` with its serialized data attribute rewritten from the caller's object. */
  function WithData(stored: Account, from: Account): Account {
    stored.(reservedUsernameHash := from.reservedUsernameHash,
            encryptedUsername := from.encryptedUsername,
            discoverable := from.discoverable,
            data := from.data)
  }

  // ---------------------------------------------------------------- lookups

  function GetByAccountIdentifier(t: Tables, uuid: Uuid): (r: Option<Account>)
    ensures r.Some? <==> uuid in t.accounts
    ensures r.Some? ==> r.value == t.accounts[uuid]
  {
    if uuid in t.accounts then Some(t.accounts[uuid]) else None
  }

  function GetByE164(t: Tables, number: E164): (r: Option<Account>)
    ensures r.Some? <==> number in t.numbers && t.numbers[number] in t.accounts
    ensures r.Some? ==> r.value == t.accounts[t.numbers[number]]
  {
    if number in t.numbers then GetByAccountIdentifier(t, t.numbers[number]) else None
  }

  function GetByPhoneNumberIdentifier(t: Tables, pni: Uuid): (r: Option<Account>)
    ensures r.Some? <==> pni in t.pnis && t.pnis[pni] in t.accounts
    ensures r.Some? ==> r.value == t.accounts[t.pnis[pni]]
  {
    if pni in t.pnis then GetByAccountIdentifier(t, t.pnis[pni]) else None
  }

  /** Only confirmed entries resolve; a reservation does not. */
  function GetByUsernameHash(t: Tables, hash: Bytes): (r: Option<Account>)
    ensures r.Some? <==> hash in t.usernames && t.usernames[hash].Confirmed() && t.usernames[hash].owner in t.accounts
    ensures r.Some? ==> r.value == t.accounts[t.usernames[hash].owner]
  {
    if hash in t.usernames && t.usernames[hash].Confirmed()
    then GetByAccountIdentifier(t, t.usernames[hash].owner)
    else None
  }

  function FindRecentlyDeletedAccountIdentifier(t: Tables, number: E164): (r: Option<Uuid>)
    ensures r.Some? <==> number in t.deleted
    ensures r.Some? ==> r.value == t.deleted[number]
  {
    if number in t.deleted then Some(t.deleted[number]) else None
  }

  /** Some live record carries `handle` as its username link handle. */
  predicate LinkResolves(t: Tables, handle: Uuid) {
    exists u | u in t.accounts :: t.accounts[u].usernameLinkHandle == Some(handle)
  }

  /** `uuid`'s record is the one live record carrying `handle`. */
  predicate LinkHeldOnlyBy(t: Tables, handle: Uuid, uuid: Uuid) {
    && uuid in t.accounts && t.accounts[uuid].usernameLinkHandle == Some(handle)
    && forall u | u in t.accounts && t.accounts[u].usernameLinkHandle == Some(handle) :: u == uuid
  }

  /** The lookup by link handle (a secondary index over the account records). */
  method GetByUsernameLinkHandle(t: Tables, handle: Uuid) returns (r: Option<Account>)
    ensures r.None? <==> !LinkResolves(t, handle)
    ensures r.Some? ==> r.value in t.accounts.Values && r.value.usernameLinkHandle == Some(handle)
    ensures forall v | LinkHeldOnlyBy(t, handle, v) :: r == Some(t.accounts[v])
  {
    var holders := set u | u in t.accounts && t.accounts[u].usernameLinkHandle == Some(handle);
    if holders == {} {
      r := None;
      assert forall u | u in t.accounts :: u !in holders;
    } else {
      var u :| u in holders;
      r := Some(t.accounts[u]);
    }
  }

  /**
   * Whether `hash` may be taken: it is free, its reservation has expired, or it is an
   * unexpired reservation held by the account named by `reservationToken`.
   */
  function UsernameHashAvailable(t: Tables, reservationToken: Option<Uuid>, hash: Bytes, now: int): (r: bool)
    ensures reservationToken.Some? ==> (r <==> Confirmable(t, hash, reservationToken.value, now))
    ensures reservationToken.None? ==> (r <==> hash !in t.usernames || t.usernames[hash].ExpiredAt(now))
  {
    if hash !in t.usernames then true
    else if t.usernames[hash].ExpiredAt(now) then true
    else !t.usernames[hash].Confirmed() && reservationToken == Some(t.usernames[hash].owner)
  }

  // ---------------------------------------------------------------- create

  /**
   * Creates the account. Succeeds with `true` when the ACI slot is free or already holds
   * this number and the number and PNI constraints are free or already this account's;
   * the tombstone for the number goes. Re-creating a live ACI with another PNI releases
   * the PNI constraint it held. A different ACI on a taken number (or PNI) instead
   * re-registers the holder: see `Reclaim`. An ACI that already holds another number is refused.
   */
  function Create(t: Tables, a: Account, now: int, reclaimTtl: nat): (s: Step<bool>)
    ensures s.result.Err? ==> s.tables == t
  {
    var accountFree := a.uuid !in t.accounts || t.accounts[a.uuid].number == a.number;
    var numberFree := a.number !in t.numbers || t.numbers[a.number] == a.uuid;
    var pniFree := a.pni !in t.pnis || t.pnis[a.pni] == a.uuid;
    if !accountFree then
      Step(t, Err(IllegalArgument), a)
    else if numberFree && pniFree then
      Step(t.(accounts := t.accounts[a.uuid := a],
              numbers := t.numbers[a.number := a.uuid],
              pnis := ReleasedPnis(t, a.uuid)[a.pni := a.uuid],
              deleted := t.deleted - {a.number}),
           Ok(true), a)
    else
      var holder := if !numberFree then t.numbers[a.number] else t.pnis[a.pni];
      if holder !in t.accounts then Step(t, Err(NoSuchElement), a)
      else Reclaim(t, holder, a, now, reclaimTtl)
  }

  /** The PNI table without the constraint of the record stored under `uuid`, if any. */
  function ReleasedPnis(t: Tables, uuid: Uuid): map<Uuid, Uuid> {
    if uuid in t.accounts then t.pnis - {t.accounts[uuid].pni} else t.pnis
  }

  /**
   * Re-registration over a live account: the new registration takes over the existing
   * record under the holder's ACI, number, PNI and version (advanced by one). A confirmed
   * username becomes a reservation of the same hash (with a reclaim time-to-live) and keeps
   * its link handle; a reservation with a saved link handle is carried over as it is; any
   * other username state is dropped. The encrypted username is always dropped.
   */
  function Reclaim(t: Tables, holder: Uuid, a: Account, now: int, reclaimTtl: nat): (s: Step<bool>)
    requires holder in t.accounts
    ensures s.result.Err? ==> s.tables == t
  {
    var existing := t.accounts[holder];
    var base := a.(uuid := holder, number := existing.number, pni := existing.pni,
                   version := existing.version + 1, usernameHash := None, encryptedUsername := None);
    if existing.usernameHash.Some? then
      var h := existing.usernameHash.value;
      if h in t.usernames && t.usernames[h].owner != holder then
        Step(t, Err(TransactionCanceled), a)
      else
        var c := base.(reservedUsernameHash := Some(h), usernameLinkHandle := existing.usernameLinkHandle);
        Step(t.(accounts := t.accounts[holder := c],
                usernames := t.usernames[h := UsernameEntry(holder, Some(now + reclaimTtl))]),
             Ok(false), c)
    else if existing.reservedUsernameHash.Some? && existing.usernameLinkHandle.Some? then
      var c := base.(reservedUsernameHash := existing.reservedUsernameHash,
                     usernameLinkHandle := existing.usernameLinkHandle);
      Step(t.(accounts := t.accounts[holder := c]), Ok(false), c)
    else
      var c := base.(reservedUsernameHash := None, usernameLinkHandle := None);
      Step(t.(accounts := t.accounts[holder := c]), Ok(false), c)
  }

  // ---------------------------------------------------------------- update

  /** The backend's exceptions, possibly wrapped in a CompletionException by the async client. */
  datatype BackendException =
    | TransactionConflictException
    | ConditionalCheckFailedException
    | CompletionException(cause: BackendException)

  /** The innermost cause. */
  function Unwrap(e: BackendException): (r: BackendException)
    ensures !r.CompletionException?
    ensures !e.CompletionException? ==> r == e
  {
    match e
    case CompletionException(cause) => Unwrap(cause)
    case _ => e
  }

  /**
   * How `update` reports a backend failure: a transaction conflict is a contested lock; a
   * failed condition is a contested lock when the account exists (its version moved)
   * and stays a failed condition when it does not.
   */
  function UpdateFailure(e: BackendException, accountExists: bool): (r: Error)
    ensures r == ConditionalCheckFailed <==> Unwrap(e) == ConditionalCheckFailedException && !accountExists
    ensures r != ConditionalCheckFailed ==> r == ContestedOptimisticLock
  {
    match Unwrap(e)
    case TransactionConflictException => ContestedOptimisticLock
    case ConditionalCheckFailedException => if accountExists then ContestedOptimisticLock else ConditionalCheckFailed
  }

  /**
   * Persists the caller's account when the stored version equals the caller's, advancing
   * both. Number, PNI and username hash are not rewritten here. `raced` is an exception
   * the backend raises on its own (a concurrent transaction), whatever the condition.
   */
  function Update(t: Tables, a: Account, raced: Option<BackendException>): (s: Step<()>)
    ensures s.result.Err? ==> s.tables == t && s.caller == a
  {
    var failure :=
      if raced.Some? then raced
      else if !VersionMatches(t, a) then Some(ConditionalCheckFailedException)
      else None;
    if failure.Some? then
      Step(t, Err(UpdateFailure(failure.value, a.uuid in t.accounts)), a)
    else
      var stored := t.accounts[a.uuid];
      var record := WithData(stored, a).(usernameLinkHandle := a.usernameLinkHandle, version := stored.version + 1);
      Step(t.(accounts := t.accounts[a.uuid := record]), Ok(()), a.(version := a.version + 1))
  }

  // ---------------------------------------------------------------- delete

  /**
   * Removes the record, its number and PNI constraints and its confirmed username entry,
   * and records a tombstone number -> ACI. An unknown ACI is a no-op.
   */
  function Delete(t: Tables, uuid: Uuid): (r: Tables)
    ensures uuid !in t.accounts ==> r == t
  {
    if uuid !in t.accounts then t
    else
      var a := t.accounts[uuid];
      Tables(t.accounts - {uuid},
             t.numbers - {a.number},
             t.pnis - {a.pni},
             if a.usernameHash.Some? then t.usernames - {a.usernameHash.value} else t.usernames,
             t.deleted[a.number := uuid])
  }

  // ---------------------------------------------------------------- change number

  /**
   * Moves the account to `number` and `pni` in one transaction: the old constraints go,
   * new ones pointing at the account are installed (both must be free), the tombstone
   * for the new number goes, and when a displaced account is named it is recorded as the
   * tombstone of the original number. Any failed condition cancels the whole transaction.
   */
  function ChangeNumber(t: Tables, a: Account, number: E164, pni: Uuid, displaced: Option<Uuid>): (s: Step<()>)
    ensures s.result.Err? ==> s.tables == t && s.caller == a
  {
    if !VersionMatches(t, a) || number in t.numbers || pni in t.pnis then
      Step(t, Err(TransactionCanceled), a)
    else
      var stored := t.accounts[a.uuid];
      var record := WithData(stored, a).(number := number, pni := pni, version := stored.version + 1);
      var tombstones := t.deleted - {number};
      Step(Tables(t.accounts[a.uuid := record],
                  (t.numbers - {stored.number})[number := a.uuid],
                  (t.pnis - {stored.pni})[pni := a.uuid],
                  t.usernames,
                  if displaced.Some? then tombstones[stored.number := displaced.value] else tombstones),
           Ok(()),
           a.(number := number, pni := pni, version := a.version + 1))
  }

  // ---------------------------------------------------------------- usernames

  /**
   * Reserves `hash` for `ttl` seconds: only when the hash is free or its reservation has
   * expired (so never a confirmed hash, nor re-reserving a live reservation, even one's
   * own) and the caller's version is current. Sets only the reserved hash.
   */
  function ReserveUsernameHash(t: Tables, a: Account, hash: Bytes, ttl: nat, now: int): (s: Step<()>)
    ensures s.result.Err? ==> s.tables == t && s.caller == a
  {
    var hashFree := hash !in t.usernames || t.usernames[hash].ExpiredAt(now);
    if !hashFree || !VersionMatches(t, a) then
      Step(t, Err(ContestedOptimisticLock), a)
    else
      var reserved := a.(reservedUsernameHash := Some(hash));
      var stored := t.accounts[a.uuid];
      Step(t.(accounts := t.accounts[a.uuid := WithData(stored, reserved).(version := stored.version + 1)],
              usernames := t.usernames[hash := UsernameEntry(a.uuid, Some(now + ttl))]),
           Ok(()),
           reserved.(version := a.version + 1))
  }

  /** The entry for `hash` does not stop `uuid` from confirming it. */
  predicate Confirmable(t: Tables, hash: Bytes, uuid: Uuid, now: int) {
    || hash !in t.usernames
    || t.usernames[hash].ExpiredAt(now)
    || (t.usernames[hash].owner == uuid && !t.usernames[hash].Confirmed())
  }

  /**
   * The link handle a confirmation leaves: the one already held when the account has no
   * confirmed hash (a handle saved by re-registration), otherwise a freshly minted one.
   */
  function ConfirmedLinkHandle(a: Account, freshHandle: Uuid): Uuid {
    if a.usernameHash.None? && a.usernameLinkHandle.Some? then a.usernameLinkHandle.value else freshHandle
  }

  /**
   * Confirms `hash`: the entry becomes a permanent claim by the caller, the caller's
   * previous confirmed hash (if another) loses its entry, and the record gets the hash,
   * the encrypted username and a link handle, with no reservation left.
   */
  function ConfirmUsernameHash(t: Tables, a: Account, hash: Bytes, encryptedUsername: Bytes,
                               freshHandle: Uuid, now: int): (s: Step<()>)
    ensures s.result.Err? ==> s.tables == t && s.caller == a
  {
    if !Confirmable(t, hash, a.uuid, now) || !VersionMatches(t, a) then
      Step(t, Err(ContestedOptimisticLock), a)
    else
      var link := ConfirmedLinkHandle(a, freshHandle);
      var confirmed := a.(usernameHash := Some(hash), reservedUsernameHash := None,
                          usernameLinkHandle := Some(link), encryptedUsername := Some(encryptedUsername));
      var stored := t.accounts[a.uuid];
      var record := WithData(stored, confirmed).(usernameHash := Some(hash), usernameLinkHandle := Some(link),
                                                  version := stored.version + 1);
      var others := if a.usernameHash.Some? then t.usernames - {a.usernameHash.value} else t.usernames;
      Step(t.(accounts := t.accounts[a.uuid := record],
              usernames := others[hash := UsernameEntry(a.uuid, None)]),
           Ok(()),
           confirmed.(version := a.version + 1))
  }

  /**
   * Clears the confirmed username: its entry, the hash, the link handle and the encrypted
   * username go together. A no-op when the caller has no username; a contested lock
   * when the version moved.
   */
  function ClearUsernameHash(t: Tables, a: Account): (s: Step<()>)
    ensures s.result.Err? ==> s.tables == t && s.caller == a
  {
    if a.usernameHash.None? then
      Step(t, Ok(()), a)
    else if !VersionMatches(t, a) then
      Step(t, Err(ContestedOptimisticLock), a)
    else
      var cleared := a.(usernameHash := None, usernameLinkHandle := None, encryptedUsername := None);
      var stored := t.accounts[a.uuid];
      var record := WithData(stored, cleared).(usernameHash := None, usernameLinkHandle := None,
                                               version := stored.version + 1);
      Step(t.(accounts := t.accounts[a.uuid := record],
              usernames := t.usernames - {a.usernameHash.value}),
           Ok(()),
           cleared.(version := a.version + 1))
  }
}
