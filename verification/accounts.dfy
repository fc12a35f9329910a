/**
 * The account directory as a stateful object: five tables held as map fields, each
 * operation a method that updates them in place, proved to be exactly the
 * corresponding transition of `AccountTables` and to keep `Tables.Valid()`.
 * Lookups read `State()` through the functions of `AccountTables`.
 *
 * Each public operation is split in two: a `Write…` method performs the table writes
 * and is proved equal to the transition function, and the operation itself adds the
 * invariant through the matching lemma of `AccountInvariant`.
 */
module AccountStore {
  import opened Common
  import opened AccountTables
  import AccountInvariant

  class Accounts {
    var accounts: map<Uuid, Account>
    var numbers: map<E164, Uuid>
    var pnis: map<Uuid, Uuid>
    var usernames: map<Bytes, UsernameEntry>
    var deletedAccounts: map<E164, Uuid>
    /** The pinned clock, in seconds since the epoch. */
    var now: int
    /** How long a username reclaimed by re-registration stays reserved, in seconds. */
    const reclaimTtl: nat

    function State(): Tables
      reads this
    {
      Tables(accounts, numbers, pnis, usernames, deletedAccounts)
    }

    ghost predicate Valid()
      reads this
    {
      State().Valid()
    }

    constructor (start: int, reclaimTtl: nat)
      ensures Valid() && State() == Empty
      ensures now == start && this.reclaimTtl == reclaimTtl
    {
      accounts, numbers, pnis, usernames, deletedAccounts := map[], map[], map[], map[], map[];
      now := start;
      this.reclaimTtl := reclaimTtl;
    }

    /** Moves the clock (the test clock's `pin`). */
    method Pin(instant: int)
      modifies this`now
      ensures now == instant
    {
      now := instant;
    }

    // ------------------------------------------------------------------ create

    method Create(a: Account) returns (freshUser: Result<bool>, caller: Account)
      requires Valid()
      modifies this`accounts, this`numbers, this`pnis, this`usernames, this`deletedAccounts
      ensures Valid()
      ensures Step(State(), freshUser, caller) == AccountTables.Create(old(State()), a, now, reclaimTtl)
    {
      freshUser, caller := WriteCreate(a);
      AccountInvariant.CreatePreservesValid(old(State()), a, now, reclaimTtl);
    }

    method WriteCreate(a: Account) returns (freshUser: Result<bool>, caller: Account)
      modifies this`accounts, this`numbers, this`pnis, this`usernames, this`deletedAccounts
      ensures Step(State(), freshUser, caller) == AccountTables.Create(old(State()), a, now, reclaimTtl)
    {
      var numberFree := a.number !in numbers || numbers[a.number] == a.uuid;
      var pniFree := a.pni !in pnis || pnis[a.pni] == a.uuid;
      if a.uuid in accounts && accounts[a.uuid].number != a.number {
        freshUser, caller := Err(IllegalArgument), a;
      } else if numberFree && pniFree {
        if a.uuid in accounts {
          pnis := pnis - {accounts[a.uuid].pni};
        }
        accounts := accounts[a.uuid := a];
        numbers := numbers[a.number := a.uuid];
        pnis := pnis[a.pni := a.uuid];
        deletedAccounts := deletedAccounts - {a.number};
        freshUser, caller := Ok(true), a;
      } else {
        var holder := if !numberFree then numbers[a.number] else pnis[a.pni];
        if holder !in accounts {
          freshUser, caller := Err(NoSuchElement), a;
        } else {
          freshUser, caller := ReclaimAccount(holder, a);
        }
      }
    }

    /** The re-registration branch of `Create`. */
    method ReclaimAccount(holder: Uuid, a: Account) returns (freshUser: Result<bool>, caller: Account)
      requires holder in accounts
      modifies this`accounts, this`usernames
      ensures Step(State(), freshUser, caller) == Reclaim(old(State()), holder, a, now, reclaimTtl)
    {
      var existing := accounts[holder];
      caller := a.(uuid := holder, number := existing.number, pni := existing.pni,
                   version := existing.version + 1, usernameHash := None, encryptedUsername := None);
      freshUser := Ok(false);
      if existing.usernameHash.Some? {
        var h := existing.usernameHash.value;
        if h in usernames && usernames[h].owner != holder {
          freshUser, caller := Err(TransactionCanceled), a;
        } else {
          caller := caller.(reservedUsernameHash := Some(h), usernameLinkHandle := existing.usernameLinkHandle);
          usernames := usernames[h := UsernameEntry(holder, Some(now + reclaimTtl))];
        }
      } else if existing.reservedUsernameHash.Some? && existing.usernameLinkHandle.Some? {
        caller := caller.(reservedUsernameHash := existing.reservedUsernameHash,
                          usernameLinkHandle := existing.usernameLinkHandle);
      } else {
        caller := caller.(reservedUsernameHash := None, usernameLinkHandle := None);
      }
      if freshUser.Ok? {
        accounts := accounts[holder := caller];
      }
    }

    // ------------------------------------------------------------------ update

    method Update(a: Account, raced: Option<BackendException>) returns (result: Result<()>, caller: Account)
      requires Valid()
      modifies this`accounts
      ensures Valid()
      ensures Step(State(), result, caller) == AccountTables.Update(old(State()), a, raced)
    {
      result, caller := WriteUpdate(a, raced);
      AccountInvariant.UpdatePreservesValid(old(State()), a, raced);
    }

    method WriteUpdate(a: Account, raced: Option<BackendException>) returns (result: Result<()>, caller: Account)
      modifies this`accounts
      ensures Step(State(), result, caller) == AccountTables.Update(old(State()), a, raced)
    {
      caller := a;
      if raced.Some? {
        result := Err(UpdateFailure(raced.value, a.uuid in accounts));
      } else if !VersionMatches(State(), a) {
        result := Err(UpdateFailure(ConditionalCheckFailedException, a.uuid in accounts));
      } else {
        var stored := accounts[a.uuid];
        accounts := accounts[a.uuid := WithData(stored, a).(usernameLinkHandle := a.usernameLinkHandle,
                                                            version := stored.version + 1)];
        result, caller := Ok(()), a.(version := a.version + 1);
      }
    }

    // ------------------------------------------------------------------ delete

    method Delete(uuid: Uuid)
      requires Valid()
      modifies this`accounts, this`numbers, this`pnis, this`usernames, this`deletedAccounts
      ensures Valid()
      ensures State() == AccountTables.Delete(old(State()), uuid)
    {
      WriteDelete(uuid);
      AccountInvariant.DeletePreservesValid(old(State()), uuid);
    }

    method WriteDelete(uuid: Uuid)
      modifies this`accounts, this`numbers, this`pnis, this`usernames, this`deletedAccounts
      ensures State() == AccountTables.Delete(old(State()), uuid)
    {
      if uuid in accounts {
        var a := accounts[uuid];
        accounts := accounts - {uuid};
        numbers := numbers - {a.number};
        pnis := pnis - {a.pni};
        if a.usernameHash.Some? {
          usernames := usernames - {a.usernameHash.value};
        }
        deletedAccounts := deletedAccounts[a.number := uuid];
      }
    }

    // ------------------------------------------------------------- change number

    method ChangeNumber(a: Account, number: E164, pni: Uuid, displaced: Option<Uuid>)
      returns (result: Result<()>, caller: Account)
      requires Valid()
      modifies this`accounts, this`numbers, this`pnis, this`deletedAccounts
      ensures Valid()
      ensures Step(State(), result, caller) == AccountTables.ChangeNumber(old(State()), a, number, pni, displaced)
    {
      result, caller := WriteChangeNumber(a, number, pni, displaced);
      AccountInvariant.ChangeNumberPreservesValid(old(State()), a, number, pni, displaced);
    }

    method WriteChangeNumber(a: Account, number: E164, pni: Uuid, displaced: Option<Uuid>)
      returns (result: Result<()>, caller: Account)
      modifies this`accounts, this`numbers, this`pnis, this`deletedAccounts
      ensures Step(State(), result, caller) == AccountTables.ChangeNumber(old(State()), a, number, pni, displaced)
    {
      if !VersionMatches(State(), a) || number in numbers || pni in pnis {
        result, caller := Err(TransactionCanceled), a;
      } else {
        var stored := accounts[a.uuid];
        accounts := accounts[a.uuid := WithData(stored, a).(number := number, pni := pni,
                                                            version := stored.version + 1)];
        numbers := (numbers - {stored.number})[number := a.uuid];
        pnis := (pnis - {stored.pni})[pni := a.uuid];
        deletedAccounts := deletedAccounts - {number};
        if displaced.Some? {
          deletedAccounts := deletedAccounts[stored.number := displaced.value];
        }
        result, caller := Ok(()), a.(number := number, pni := pni, version := a.version + 1);
      }
    }

    // --------------------------------------------------------------- usernames

    method ReserveUsernameHash(a: Account, hash: Bytes, ttl: nat) returns (result: Result<()>, caller: Account)
      requires Valid()
      modifies this`accounts, this`usernames
      ensures Valid()
      ensures Step(State(), result, caller) == AccountTables.ReserveUsernameHash(old(State()), a, hash, ttl, now)
    {
      result, caller := WriteReservation(a, hash, ttl);
      AccountInvariant.ReservePreservesValid(old(State()), a, hash, ttl, now);
    }

    method WriteReservation(a: Account, hash: Bytes, ttl: nat) returns (result: Result<()>, caller: Account)
      modifies this`accounts, this`usernames
      ensures Step(State(), result, caller) == AccountTables.ReserveUsernameHash(old(State()), a, hash, ttl, now)
    {
      var hashFree := hash !in usernames || usernames[hash].ExpiredAt(now);
      if !hashFree || !VersionMatches(State(), a) {
        result, caller := Err(ContestedOptimisticLock), a;
      } else {
        var reserved := a.(reservedUsernameHash := Some(hash));
        var stored := accounts[a.uuid];
        usernames := usernames[hash := UsernameEntry(a.uuid, Some(now + ttl))];
        accounts := accounts[a.uuid := WithData(stored, reserved).(version := stored.version + 1)];
        result, caller := Ok(()), reserved.(version := a.version + 1);
      }
    }

    /** `freshHandle` stands for the random link handle the directory mints when it needs one. */
    method ConfirmUsernameHash(a: Account, hash: Bytes, encryptedUsername: Bytes, freshHandle: Uuid)
      returns (result: Result<()>, caller: Account)
      requires Valid()
      modifies this`accounts, this`usernames
      ensures Valid()
      ensures Step(State(), result, caller)
           == AccountTables.ConfirmUsernameHash(old(State()), a, hash, encryptedUsername, freshHandle, now)
    {
      result, caller := WriteConfirmation(a, hash, encryptedUsername, freshHandle);
      AccountInvariant.ConfirmPreservesValid(old(State()), a, hash, encryptedUsername, freshHandle, now);
    }

    method WriteConfirmation(a: Account, hash: Bytes, encryptedUsername: Bytes, freshHandle: Uuid)
      returns (result: Result<()>, caller: Account)
      modifies this`accounts, this`usernames
      ensures Step(State(), result, caller)
           == AccountTables.ConfirmUsernameHash(old(State()), a, hash, encryptedUsername, freshHandle, now)
    {
      if !Confirmable(State(), hash, a.uuid, now) || !VersionMatches(State(), a) {
        result, caller := Err(ContestedOptimisticLock), a;
      } else {
        var link := if a.usernameHash.None? && a.usernameLinkHandle.Some? then a.usernameLinkHandle.value else freshHandle;
        var confirmed := a.(usernameHash := Some(hash), reservedUsernameHash := None,
                            usernameLinkHandle := Some(link), encryptedUsername := Some(encryptedUsername));
        var stored := accounts[a.uuid];
        if a.usernameHash.Some? {
          usernames := usernames - {a.usernameHash.value};
        }
        usernames := usernames[hash := UsernameEntry(a.uuid, None)];
        accounts := accounts[a.uuid := WithData(stored, confirmed).(usernameHash := Some(hash),
                                                                    usernameLinkHandle := Some(link),
                                                                    version := stored.version + 1)];
        result, caller := Ok(()), confirmed.(version := a.version + 1);
      }
    }

    method ClearUsernameHash(a: Account) returns (result: Result<()>, caller: Account)
      requires Valid()
      modifies this`accounts, this`usernames
      ensures Valid()
      ensures Step(State(), result, caller) == AccountTables.ClearUsernameHash(old(State()), a)
    {
      result, caller := WriteClear(a);
      AccountInvariant.ClearPreservesValid(old(State()), a);
    }

    method WriteClear(a: Account) returns (result: Result<()>, caller: Account)
      modifies this`accounts, this`usernames
      ensures Step(State(), result, caller) == AccountTables.ClearUsernameHash(old(State()), a)
    {
      caller := a;
      if a.usernameHash.None? {
        result := Ok(());
      } else if !VersionMatches(State(), a) {
        result := Err(ContestedOptimisticLock);
      } else {
        var cleared := a.(usernameHash := None, usernameLinkHandle := None, encryptedUsername := None);
        var stored := accounts[a.uuid];
        usernames := usernames - {a.usernameHash.value};
        accounts := accounts[a.uuid := WithData(stored, cleared).(usernameHash := None, usernameLinkHandle := None,
                                                                  version := stored.version + 1)];
        result, caller := Ok(()), cleared.(version := a.version + 1);
      }
    }
  }
}
