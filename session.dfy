/** The per-lamp session: one mutable authentication token and the `request`
    wrapper that runs an action against it, logging in again and retrying
    exactly once when the action fails. The vendor library's login and the
    action's device call are outcome oracles passed in by the caller. */
module SessionManager {

  /** An opaque authentication token returned by the vendor's login. */
  type Token = string

  /** The error a vendor call rejects with. */
  type Error = string

  /** The outcome of an awaited vendor call: a value, or the error it threw. */
  datatype Result<T> = Success(value: T) | Failure(error: Error)

  /** The closure variable `token` of one lamp, with the `request` wrapper
      that every device call of that lamp goes through. */
  class Session {
    var token: Token

    /** How many times `request` has logged in again. */
    ghost var Logins: nat
    /** The token of every action invocation so far, oldest first. */
    ghost var Attempts: seq<Token>
    /** How many times `request` has been called. */
    ghost var Calls: nat

    /** Every call makes one attempt, and a second one only after logging
        in, which it does at most once: so no call ever makes a third. */
    ghost predicate Valid()
      reads this
    {
      Logins <= Calls <= |Attempts| <= Calls + Logins
    }

    /** The session after the login that precedes any device call. */
    constructor (initial: Token)
      ensures Valid()
      ensures token == initial && Logins == 0 && Attempts == [] && Calls == 0
    {
      token := initial;
      Logins := 0;
      Attempts := [];
      Calls := 0;
    }

    /** `request(cb)`. `action(t, n)` is what the action produces when
        invoked with token `t` as the `n`-th attempt of this call (0 or 1);
        `login` is what the login would produce if it is called.

        The first attempt uses the current token. If it succeeds, its result
        is returned and nothing else happens. If it fails, the session logs
        in once: a failing login propagates its error with no further
        attempt and the token kept; a successful one replaces the token,
        which later calls then use, and the result of one more attempt with
        the new token is returned as it is, success or failure. */
    method Request<R>(action: (Token, nat) -> Result<R>, login: Result<Token>) returns (r: Result<R>)
      requires Valid()
      modifies this
      ensures Valid()
      ensures Calls == old(Calls) + 1
      ensures action(old(token), 0).Success? ==>
        && r == action(old(token), 0)
        && token == old(token)
        && Logins == old(Logins)
        && Attempts == old(Attempts) + [old(token)]
      ensures action(old(token), 0).Failure? ==> Logins == old(Logins) + 1
      ensures action(old(token), 0).Failure? && login.Failure? ==>
        && r == Failure(login.error)
        && token == old(token)
        && Attempts == old(Attempts) + [old(token)]
      ensures action(old(token), 0).Failure? && login.Success? ==>
        && r == action(login.value, 1)
        && token == login.value
        && Attempts == old(Attempts) + [old(token), login.value]
    {
      Calls := Calls + 1;
      var first := action(token, 0);
      Attempts := Attempts + [token];
      if first.Success? {
        r := first;
      } else {
        Logins := Logins + 1;
        if login.Failure? {
          r := Failure(login.error);
        } else {
          token := login.value;
          Attempts := Attempts + [token];
          r := action(token, 1);
        }
      }
    }
  }

  /** The action of the scenarios below: the device rejects the token
      "stale" and answers any other token with a reply naming it. */
  function StaleRejected(t: Token, attempt: nat): (r: Result<string>)
  {
    if t == "stale" then Failure("expired") else Success("ok " + t)
  }

  /** An expired token: the first call logs in once and succeeds on the
      retry with the fresh token; the second call uses the fresh token
      straight away and never reaches its login, whose failure would
      otherwise be its result. */
  method ExpiredTokenScenario() returns (r1: Result<string>, r2: Result<string>)
    ensures r1 == Success("ok fresh")
    ensures r2 == Success("ok fresh")
  {
    var s := new Session("stale");
    assert "ok " + "fresh" == "ok fresh";
    r1 := s.Request(StaleRejected, Success("fresh"));
    assert s.Logins == 1 && s.Attempts == ["stale", "fresh"];
    r2 := s.Request(StaleRejected, Failure("unreachable"));
    assert s.Logins == 1 && s.Attempts == ["stale", "fresh", "fresh"];
  }

  /** An action that fails on both attempts: the second failure is the
      result, after exactly one login and exactly two attempts. */
  method PersistentFailureScenario() returns (r: Result<int>)
    ensures r == Failure("second")
  {
    var s := new Session("t0");
    r := s.Request((t: Token, n: nat) => if n == 0 then Failure("first") else Failure("second"), Success("t1"));
    assert s.Logins == 1 && s.Attempts == ["t0", "t1"] && s.token == "t1";
  }

  /** A failing login: its error is the result and the action is not tried
      a second time. */
  method LoginFailureScenario() returns (r: Result<int>)
    ensures r == Failure("bad credentials")
  {
    var s := new Session("t0");
    r := s.Request((t: Token, n: nat) => Failure("expired"), Failure("bad credentials"));
    assert s.Logins == 1 && s.Attempts == ["t0"] && s.token == "t0";
  }
}
