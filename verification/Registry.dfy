/** Accounts, rigs and the keys rigs prove themselves with. */
module Registry {
  import opened Wrappers
  import opened Rollup

  datatype Account = Account(payoutAddress: string, solanaAddress: Option<string>)

  datatype KeyRow = KeyRow(accountId: string, workerId: nat, workerName: string, lastSeenAt: int)

  datatype Tables = Tables(
    accounts: map<string, Account>,
    workers: Workers,
    keys: map<string, KeyRow>)

  const EMPTY := Tables(map[], [], map[])

  datatype RegistryError = AccountExists | KeyOfAnotherAccount | NoSuchAccount

  /** A key already bound stays with its account; a new one needs an account that exists, though
      the worker row is written before that is checked. */
  function AfterRegister(t: Tables, publicKey: string, accountId: string, workerName: string, now: int): Tables {
    if publicKey in t.keys then t
    else
      var worker := Worker(accountId, workerName);
      var seen := t.(workers := AfterTouch(t.workers, worker));
      if accountId !in t.accounts then seen
      else seen.(keys := t.keys[publicKey := KeyRow(accountId, Find(t.workers, worker), workerName, now)])
  }

  function RegisterResult(t: Tables, publicKey: string, accountId: string, workerName: string, now: int)
    : Result<KeyRow, RegistryError>
  {
    if publicKey in t.keys then
      if t.keys[publicKey].accountId != accountId then Err(KeyOfAnotherAccount) else Ok(t.keys[publicKey])
    else if accountId !in t.accounts then Err(NoSuchAccount)
    else Ok(KeyRow(accountId, Find(t.workers, Worker(accountId, workerName)), workerName, now))
  }

  function AfterCreate(t: Tables, id: string, payoutAddress: string): Tables {
    if id in t.accounts then t else t.(accounts := t.accounts[id := Account(payoutAddress, None)])
  }

  function AfterTouchKey(t: Tables, publicKey: string, now: int): Tables {
    if publicKey in t.keys then t.(keys := t.keys[publicKey := t.keys[publicKey].(lastSeenAt := now)]) else t
  }

  function AfterBindWallet(t: Tables, id: string, address: string): Tables {
    if id in t.accounts then t.(accounts := t.accounts[id := t.accounts[id].(solanaAddress := Some(address))]) else t
  }

  ghost predicate Enrolled(t: Tables, accountId: string) {
    exists key :: key in t.keys && t.keys[key].accountId == accountId
  }

  class Registry {
    var tables: Tables

    constructor ()
      ensures tables == EMPTY
    {
      tables := EMPTY;
    }

    method CreateAccount(id: string, payoutAddress: string) returns (created: bool)
      modifies this
      ensures created == (id !in old(tables).accounts)
      ensures tables == AfterCreate(old(tables), id, payoutAddress)
    {
      created := id !in tables.accounts;
      if created {
        tables := tables.(accounts := tables.accounts[id := Account(payoutAddress, None)]);
      }
    }

    method RegisterWorkerKey(publicKey: string, accountId: string, workerName: string, now: int)
      returns (binding: Result<KeyRow, RegistryError>)
      modifies this
      ensures binding == RegisterResult(old(tables), publicKey, accountId, workerName, now)
      ensures tables == AfterRegister(old(tables), publicKey, accountId, workerName, now)
    {
      if publicKey in tables.keys {
        var existing := tables.keys[publicKey];
        if existing.accountId != accountId {
          return Err(KeyOfAnotherAccount);
        }
        return Ok(existing);
      }
      var worker := Worker(accountId, workerName);
      var workerId := Find(tables.workers, worker);
      if workerId == |tables.workers| {
        tables := tables.(workers := tables.workers + [worker]);
      }
      if accountId !in tables.accounts {
        return Err(NoSuchAccount);
      }
      var row := KeyRow(accountId, workerId, workerName, now);
      tables := tables.(keys := tables.keys[publicKey := row]);
      return Ok(row);
    }

    method TouchWorkerKey(publicKey: string, now: int)
      modifies this
      ensures tables == AfterTouchKey(old(tables), publicKey, now)
    {
      if publicKey in tables.keys {
        tables := tables.(keys := tables.keys[publicKey := tables.keys[publicKey].(lastSeenAt := now)]);
      }
    }

    method BindSolanaAddress(accountId: string, address: string) returns (bound: bool)
      modifies this
      ensures bound == (accountId in old(tables).accounts)
      ensures tables == AfterBindWallet(old(tables), accountId, address)
    {
      bound := accountId in tables.accounts;
      if bound {
        tables := AfterBindWallet(tables, accountId, address);
      }
    }

    /** Counting the account's keys: true exactly when one is enrolled. */
    method HasEnrolledKeys(accountId: string) returns (has: bool)
      ensures has <==> Enrolled(tables, accountId)
    {
      var keys := tables.keys.Keys;
      var n := 0;
      while keys != {}
        invariant keys <= tables.keys.Keys
        invariant n > 0 <==>
          exists key :: key in tables.keys && key !in keys && tables.keys[key].accountId == accountId
        decreases |keys|
      {
        var key :| key in keys;
        if tables.keys[key].accountId == accountId {
          n := n + 1;
        }
        keys := keys - {key};
      }
      return n > 0;
    }
  }

  /** A key never moves to another account and is never lost, whatever is registered later. */
  lemma RegisterNeverMovesAKey(t: Tables, publicKey: string, accountId: string, workerName: string, now: int)
    ensures var after := AfterRegister(t, publicKey, accountId, workerName, now);
            && (forall key :: key in t.keys ==> key in after.keys && after.keys[key] == t.keys[key])
            && (forall key :: key in after.keys && key !in t.keys ==>
                  key == publicKey && after.keys[key].accountId == accountId)
  {}

  /** A key is enrolled under an account only if the registration named that account, the account
      exists, and the key was free or already its own. */
  lemma RegisterSucceedsIff(t: Tables, publicKey: string, accountId: string, workerName: string, now: int)
    ensures RegisterResult(t, publicKey, accountId, workerName, now).Ok? <==>
      var after := AfterRegister(t, publicKey, accountId, workerName, now);
      publicKey in after.keys && after.keys[publicKey].accountId == accountId
  {}
}
