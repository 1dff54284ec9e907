/** The client auth store as its code runs between awaits. */
module AuthStore {
  import opened Basics
  import opened CredentialQueue

  class Store {
    var memory: Option<Credentials>
    var keychain: Option<Credentials>
    var authRevision: nat
    var credentialQueue: seq<Operation>
    var phase: Phase
    var calls: nat

    ghost function Value(): State
      reads this
    {
      State(memory, keychain, authRevision, credentialQueue, phase, calls)
    }

    /** What an earlier run stored counts as brought in by call 0. */
    constructor (stored: Option<Credentials>)
      requires stored.Some? ==> stored.value.call == 0
      ensures IsStart(Value()) && keychain == stored
    {
      memory, keychain := None, stored;
      authRevision, credentialQueue, phase, calls := 0, [], WAITING, 1;
    }

    /** The end of `hydrate`, when what it read has arrived. */
    method Hydrate(read: Option<Credentials>)
      modifies this`memory
      ensures Value() == LateHydrate(old(Value()), read)
    {
      if read.None? {
        return;
      }
      memory := read;
    }

    method UpdateCredentials(operation: Operation)
      modifies this`credentialQueue
      ensures credentialQueue == old(credentialQueue) + [operation]
    {
      credentialQueue := credentialQueue + [operation];
    }

    /** `setTokens` up to its first await. */
    method SetTokens(access: int, refresh: int, user: int, expected: Option<int>)
      modifies this
      ensures Value() == Next(old(Value()), Step.SetTokens(access, refresh, user, expected))
    {
      var call := calls;
      calls := calls + 1;
      if expected.Some? {
        var current := if memory.Some? then Some(memory.value.refresh) else None;
        if current != expected {
          return;
        }
      } else {
        authRevision := authRevision + 1;
      }
      UpdateCredentials(Save(authRevision, Credentials(access, refresh, user, call)));
    }

    method Logout()
      modifies this
      ensures Value() == Next(old(Value()), Step.Logout)
    {
      authRevision := authRevision + 1;
      memory := None;
      UpdateCredentials(Clear);
    }

    /** The operation at the head of the queue begins. */
    method StartOperation()
      requires Enabled(Value(), Step.StartOperation)
      modifies this
      ensures Value() == Next(old(Value()), Step.StartOperation)
    {
      match credentialQueue[0] {
        case Save(revision, _) =>
          phase := if revision != authRevision then SETTLED else SAVING;
        case Clear =>
          phase := SAVING;
      }
    }

    /** Its secure-store call completes. */
    method FinishOperation()
      requires Enabled(Value(), Step.FinishOperation)
      modifies this
      ensures Value() == Next(old(Value()), Step.FinishOperation)
    {
      match credentialQueue[0] {
        case Save(_, credentials) => keychain := Some(credentials);
        case Clear => keychain := None;
      }
      phase := SETTLED;
    }

    /** The caller's await returns. */
    method Continue()
      requires Enabled(Value(), Step.Continue)
      modifies this
      ensures Value() == Next(old(Value()), Step.Continue)
    {
      match credentialQueue[0] {
        case Save(revision, credentials) =>
          if revision == authRevision {
            memory := Some(credentials);
          }
        case Clear =>
      }
      credentialQueue := credentialQueue[1..];
      phase := WAITING;
    }
  }
}
