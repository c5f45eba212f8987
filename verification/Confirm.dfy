/**
 Confirmation tokens: each authorises one tool on one entity, once, for a while. Time
 is a number of nanoseconds, and the token a call draws is given to it.
 */
module Confirm {
  import opened Sequences

  datatype Pending = Pending(tool: string, entity: int, expires: int)

  type Tokens = map<string, Pending>

  const SECOND := 1_000_000_000
  const DEFAULT_TTL := 120 * SECOND

  function Unexpired(tokens: Tokens, now: int): Tokens {
    map t | t in tokens && now < tokens[t].expires :: tokens[t]
  }

  function Issue(tokens: Tokens, token: string, pending: Pending, now: int): Tokens {
    Unexpired(tokens, now)[token := pending]
  }

  function Redeem(tokens: Tokens, tool: string, token: string, entity: int, now: int): (Tokens, bool) {
    if token !in tokens then (tokens, false)
    else if now >= tokens[token].expires then (tokens - {token}, false)
    else if tokens[token].tool != tool || tokens[token].entity != entity then (tokens, false)
    else (tokens - {token}, true)
  }

  class Confirmer {
    const ttl: int
    var tokens: Tokens

    constructor (ttl: int)
      ensures this.ttl == (if ttl <= 0 then DEFAULT_TTL else ttl) && tokens == map[]
    {
      this.ttl := if ttl <= 0 then DEFAULT_TTL else ttl;
      tokens := map[];
    }

    method DropExpired(now: int)
      modifies this`tokens
      ensures tokens == Unexpired(old(tokens), now)
      ensures forall t :: t in tokens <==> t in old(tokens) && now < old(tokens)[t].expires
      ensures forall t :: t in tokens ==> tokens[t] == old(tokens)[t]
    {
      var left := tokens.Keys;
      while left != {}
        invariant left <= tokens.Keys <= old(tokens).Keys
        invariant forall t :: t in tokens ==> tokens[t] == old(tokens)[t] && (t in left || now < tokens[t].expires)
        invariant forall t :: t in old(tokens) && now < old(tokens)[t].expires ==> t in tokens
        decreases |left|
      {
        var t := TakeOne(left);
        left := left - {t};
        if now >= tokens[t].expires {
          tokens := tokens - {t};
        }
      }
    }

    /** The clock is read once for the expiry and again, under the lock, for the sweep. */
    method IssueToken(tool: string, entity: int, token: string, minted: int, now: int) returns (expires: int)
      modifies this`tokens
      ensures expires == minted + ttl
      ensures tokens == Issue(old(tokens), token, Pending(tool, entity, minted + ttl), now)
      ensures token in tokens && tokens[token] == Pending(tool, entity, minted + ttl)
      ensures forall t :: t != token ==> (t in tokens <==> t in old(tokens) && now < old(tokens)[t].expires)
      ensures forall t :: t != token && t in tokens ==> tokens[t] == old(tokens)[t]
    {
      expires := minted + ttl;
      DropExpired(now);
      tokens := tokens[token := Pending(tool, entity, expires)];
    }

    method RedeemToken(tool: string, token: string, entity: int, now: int) returns (ok: bool)
      modifies this`tokens
      ensures (tokens, ok) == Redeem(old(tokens), tool, token, entity, now)
      ensures ok <==> token in old(tokens) && tool == old(tokens)[token].tool && entity == old(tokens)[token].entity && now < old(tokens)[token].expires
      ensures tokens == if ok || (token in old(tokens) && now >= old(tokens)[token].expires) then old(tokens) - {token} else old(tokens)
    {
      if token !in tokens {
        return false;
      }
      var pending := tokens[token];
      if now >= pending.expires {
        tokens := tokens - {token};
        return false;
      }
      if pending.tool != tool || pending.entity != entity {
        return false;
      }
      tokens := tokens - {token};
      return true;
    }
  }

  // ---- Runs --------------------------------------------------------------------------------------

  /** One call, with the clock it reads under the lock. */
  datatype Step =
    | Issued(token: string, tool: string, entity: int, minted: int, now: int)
    | Tried(token: string, tool: string, entity: int, now: int)

  function Expiry(step: Step, ttl: int): int
    requires step.Issued?
  {
    step.minted + ttl
  }

  /** The pending tokens after a run. */
  function After(steps: seq<Step>, ttl: int): Tokens
    decreases |steps|
  {
    if steps == [] then map[]
    else
      var before, last := After(steps[..|steps| - 1], ttl), steps[|steps| - 1];
      if last.Issued? then Issue(before, last.token, Pending(last.tool, last.entity, Expiry(last, ttl)), last.now)
      else Redeem(before, last.tool, last.token, last.entity, last.now).0
  }

  /** The call at this position redeemed its token. */
  predicate Redeemed(steps: seq<Step>, ttl: int, i: int) {
    && 0 <= i < |steps| && steps[i].Tried?
    && Redeem(After(steps[..i], ttl), steps[i].tool, steps[i].token, steps[i].entity, steps[i].now).1
  }

  /** The clock does not go back, and no token is drawn twice. */
  ghost predicate Proper(steps: seq<Step>) {
    && (forall i, j :: 0 <= i < j < |steps| ==> steps[i].now <= steps[j].now)
    && (forall i, j :: 0 <= i < j < |steps| && steps[i].Issued? && steps[j].Issued? ==> steps[i].token != steps[j].token)
  }

  /** Issued at position `j` and not redeemed before position `n`. */
  ghost predicate Open(steps: seq<Step>, ttl: int, j: int, n: int) {
    && 0 <= j < n <= |steps| && steps[j].Issued?
    && forall k :: j < k < n && steps[k].token == steps[j].token ==> !Redeemed(steps, ttl, k)
  }

  ghost predicate StandsFor(steps: seq<Step>, ttl: int, j: int, p: Pending) {
    0 <= j < |steps| && steps[j].Issued? && p == Pending(steps[j].tool, steps[j].entity, Expiry(steps[j], ttl))
  }

  /** What is pending was issued and not redeemed; what still can be redeemed is pending. */
  ghost predicate InSync(steps: seq<Step>, ttl: int, n: int)
    requires 0 <= n <= |steps|
  {
    var tokens := After(steps[..n], ttl);
    && AllIssued(steps, ttl, n)
    && (forall j :: Open(steps, ttl, j, n) && (n == 0 || steps[n - 1].now < Expiry(steps[j], ttl)) ==>
      steps[j].token in tokens && StandsFor(steps, ttl, j, tokens[steps[j].token]))
  }

  lemma AfterOneMore(steps: seq<Step>, ttl: int, n: int)
    requires 0 <= n < |steps|
    ensures After(steps[..n + 1], ttl) ==
      if steps[n].Issued? then
        Issue(After(steps[..n], ttl), steps[n].token, Pending(steps[n].tool, steps[n].entity, Expiry(steps[n], ttl)), steps[n].now)
      else Redeem(After(steps[..n], ttl), steps[n].tool, steps[n].token, steps[n].entity, steps[n].now).0
  {
    assert steps[..n + 1][..n] == steps[..n];
  }

  lemma OpenEarlier(steps: seq<Step>, ttl: int, j: int, n: int)
    requires 0 <= n < |steps| && Open(steps, ttl, j, n + 1) && j < n
    ensures Open(steps, ttl, j, n)
  {
  }

  /** Each pending token has an issue that is still open. */
  ghost predicate AllIssued(steps: seq<Step>, ttl: int, n: int)
    requires 0 <= n <= |steps|
  {
    var tokens := After(steps[..n], ttl);
    forall t :: t in tokens ==> exists j :: Open(steps, ttl, j, n) && steps[j].token == t && StandsFor(steps, ttl, j, tokens[t])
  }

  lemma IssueAllIssued(steps: seq<Step>, ttl: int, n: int)
    requires 0 <= n < |steps| && AllIssued(steps, ttl, n) && steps[n].Issued?
    ensures AllIssued(steps, ttl, n + 1)
  {
    hide Redeemed, After;
    AfterOneMore(steps, ttl, n);
    var before, after := After(steps[..n], ttl), After(steps[..n + 1], ttl);
    forall t | t in after
      ensures exists j :: Open(steps, ttl, j, n + 1) && steps[j].token == t && StandsFor(steps, ttl, j, after[t])
    {
      if t == steps[n].token {
        assert Open(steps, ttl, n, n + 1);
      } else {
        var j :| Open(steps, ttl, j, n) && steps[j].token == t && StandsFor(steps, ttl, j, before[t]);
        assert Open(steps, ttl, j, n + 1);
      }
    }
  }

  lemma IssueInSync(steps: seq<Step>, ttl: int, n: int)
    requires Proper(steps) && 0 <= n < |steps| && InSync(steps, ttl, n) && steps[n].Issued?
    ensures InSync(steps, ttl, n + 1)
  {
    hide Redeemed, After;
    assert AllIssued(steps, ttl, n);
    IssueAllIssued(steps, ttl, n);
    AfterOneMore(steps, ttl, n);
    var after := After(steps[..n + 1], ttl);
    forall j | Open(steps, ttl, j, n + 1) && steps[n].now < Expiry(steps[j], ttl)
      ensures steps[j].token in after && StandsFor(steps, ttl, j, after[steps[j].token])
    {
      if j < n {
        OpenEarlier(steps, ttl, j, n);
        assert n > 0 ==> steps[n - 1].now <= steps[n].now;
      }
    }
  }

  lemma TryInSync(steps: seq<Step>, ttl: int, n: int)
    requires Proper(steps) && 0 <= n < |steps| && InSync(steps, ttl, n) && steps[n].Tried?
    ensures InSync(steps, ttl, n + 1)
  {
    hide After;
    AfterOneMore(steps, ttl, n);
    var before, after := After(steps[..n], ttl), After(steps[..n + 1], ttl);
    forall t | t in after
      ensures exists j :: Open(steps, ttl, j, n + 1) && steps[j].token == t && StandsFor(steps, ttl, j, after[t])
    {
      var j :| Open(steps, ttl, j, n) && steps[j].token == t && StandsFor(steps, ttl, j, before[t]);
      assert Open(steps, ttl, j, n + 1);
    }
    forall j | Open(steps, ttl, j, n + 1) && steps[n].now < Expiry(steps[j], ttl)
      ensures steps[j].token in after && StandsFor(steps, ttl, j, after[steps[j].token])
    {
      OpenEarlier(steps, ttl, j, n);
      assert n > 0 ==> steps[n - 1].now <= steps[n].now;
      assert steps[n].token == steps[j].token ==> !Redeemed(steps, ttl, n);
    }
  }

  lemma StartsInSync(steps: seq<Step>, ttl: int)
    ensures InSync(steps, ttl, 0)
  {
  }

  lemma {:induction false} AlwaysInSync(steps: seq<Step>, ttl: int, n: int)
    requires Proper(steps) && 0 <= n <= |steps|
    ensures InSync(steps, ttl, n)
    decreases n
  {
    hide InSync, Proper;
    StartsInSync(steps, ttl);
    if n > 0 {
      AlwaysInSync(steps, ttl, n - 1);
      if steps[n - 1].Issued? {
        IssueInSync(steps, ttl, n - 1);
      } else {
        TryInSync(steps, ttl, n - 1);
      }
    }
  }

  /** The proposal a call could redeem: for this tool and entity, unexpired, not redeemed yet. */
  ghost predicate Answers(steps: seq<Step>, ttl: int, j: int, i: int) {
    && Open(steps, ttl, j, i) && i < |steps| && steps[i].Tried?
    && steps[j].token == steps[i].token && steps[j].tool == steps[i].tool && steps[j].entity == steps[i].entity
    && steps[i].now < steps[j].minted + ttl
  }

  /**
   A token is redeemed exactly when it was issued earlier for this very tool and entity,
   has not expired, and has not been redeemed before. Sweeps and mistaken attempts in
   between make no difference.
   */
  lemma RedeemedExactly(steps: seq<Step>, ttl: int, i: int)
    requires Proper(steps) && 0 <= i < |steps| && steps[i].Tried?
    ensures Redeemed(steps, ttl, i) <==> exists j :: Answers(steps, ttl, j, i)
  {
    hide After;
    AlwaysInSync(steps, ttl, i);
    var tokens := After(steps[..i], ttl);
    if Redeemed(steps, ttl, i) {
      var j :| Open(steps, ttl, j, i) && steps[j].token == steps[i].token && StandsFor(steps, ttl, j, tokens[steps[i].token]);
      assert Answers(steps, ttl, j, i);
    }
    if exists j :: Answers(steps, ttl, j, i) {
      var j :| Answers(steps, ttl, j, i);
      assert i > 0 && steps[i - 1].now <= steps[i].now;
    }
  }

  /** No token is redeemed twice. */
  lemma RedeemedOnce(steps: seq<Step>, ttl: int, i: int, j: int)
    requires Proper(steps) && Redeemed(steps, ttl, i) && Redeemed(steps, ttl, j) && steps[i].token == steps[j].token
    ensures i == j
  {
    hide Redeemed;
    var a, b := if i < j then i else j, if i < j then j else i;
    assert steps[i].Tried? && steps[j].Tried? && 0 <= i < |steps| && 0 <= j < |steps| by { TriedThere(steps, ttl, i); TriedThere(steps, ttl, j); }
    RedeemedExactly(steps, ttl, a);
    RedeemedExactly(steps, ttl, b);
    var x :| Answers(steps, ttl, x, a);
    var y :| Answers(steps, ttl, y, b);
    assert x == y;
  }

  lemma TriedThere(steps: seq<Step>, ttl: int, i: int)
    requires Redeemed(steps, ttl, i)
    ensures 0 <= i < |steps| && steps[i].Tried?
  {
  }

  // ---- Proposals and confirmations -----------------------------------------------------------------

  function Proposals(steps: seq<Step>, tool: string, entity: int): nat
    decreases |steps|
  {
    if steps == [] then 0
    else
      var last := steps[|steps| - 1];
      Proposals(steps[..|steps| - 1], tool, entity) + if last.Issued? && last.tool == tool && last.entity == entity then 1 else 0
  }

  function Confirmations(steps: seq<Step>, ttl: int, tool: string, entity: int): nat
    decreases |steps|
  {
    if steps == [] then 0
    else
      var last := steps[|steps| - 1];
      Confirmations(steps[..|steps| - 1], ttl, tool, entity)
      + if Redeemed(steps, ttl, |steps| - 1) && last.tool == tool && last.entity == entity then 1 else 0
  }

  function PendingFor(tokens: Tokens, tool: string, entity: int): set<string> {
    set t | t in tokens && tokens[t].tool == tool && tokens[t].entity == entity
  }

  lemma SetNoLarger(a: set<string>, b: set<string>)
    requires a <= b
    ensures |a| <= |b|
  {
    assert b == a + (b - a);
  }

  /**
   Nothing is authorised more often than it was proposed: what was confirmed and what is
   still pending never exceed the proposals of the same action, whatever the tokens drawn.
   */
  lemma {:induction false} ConfirmationsCovered(steps: seq<Step>, ttl: int, tool: string, entity: int)
    ensures Confirmations(steps, ttl, tool, entity) + |PendingFor(After(steps, ttl), tool, entity)| <= Proposals(steps, tool, entity)
    decreases |steps|
  {
    if steps != [] {
      var n := |steps| - 1;
      var last := steps[n];
      ConfirmationsCovered(steps[..n], ttl, tool, entity);
      assert steps[..n + 1] == steps;
      AfterOneMore(steps, ttl, n);
      var before, after := After(steps[..n], ttl), After(steps, ttl);
      var was, is_ := PendingFor(before, tool, entity), PendingFor(after, tool, entity);
      if last.Issued? {
        SetNoLarger(is_, was + {last.token});
        if !(last.tool == tool && last.entity == entity) {
          SetNoLarger(is_, was);
        }
      } else {
        SetNoLarger(is_, was);
        if Redeemed(steps, ttl, n) && last.tool == tool && last.entity == entity {
          assert is_ == was - {last.token} && last.token in was;
        }
      }
    } else {
      assert PendingFor(After(steps, ttl), tool, entity) == {};
    }
  }
}
