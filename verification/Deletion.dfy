/**
 Deleting asks first: a call without a confirmation proposes and leaves everything in
 place, and the deletion happens when the token of the proposal comes back.
 */
module Deletion {
  import opened Inventory
  import opened StoreModel
  import opened StoreInvariant
  import opened Store
  import opened LocationIndex
  import opened LocationAgrees
  import opened Confirm

  const DELETE_ITEM := "delete_item"

  datatype Verdict = Bypassed | Confirmed | Proposed(token: string, seconds: int) | Refused | NoToken

  /** What a call passes along: its caller's policy, its own wish, and a token to spend. */
  datatype Request = Request(bypass: bool, confirm: bool, token: string)

  /** The decision on a destructive call, given the pending tokens and a freshly drawn one. */
  function Decide(tokens: Tokens, ttl: int, tool: string, entity: int, request: Request, drawn: Option<string>, minted: int, now: int):
    (Tokens, Verdict)
  {
    if request.confirm || request.bypass then (tokens, Bypassed)
    else if request.token != "" then
      var (left, ok) := Redeem(tokens, tool, request.token, entity, now);
      (left, if ok then Confirmed else Refused)
    else if drawn.None? then (tokens, NoToken)
    else (Issue(tokens, drawn.value, Pending(tool, entity, minted + ttl), now), Proposed(drawn.value, ttl / SECOND))
  }

  method AuthoriseDestructive(confirmer: Confirmer, tool: string, entity: int, request: Request, drawn: Option<string>, minted: int, now: int)
    returns (verdict: Verdict)
    modifies confirmer`tokens
    ensures (confirmer.tokens, verdict) == Decide(old(confirmer.tokens), confirmer.ttl, tool, entity, request, drawn, minted, now)
  {
    if request.confirm || request.bypass {
      return Bypassed;
    }
    if request.token != "" {
      var ok := confirmer.RedeemToken(tool, request.token, entity, now);
      return if ok then Confirmed else Refused;
    }
    if drawn.None? {
      return NoToken;
    }
    var expires := confirmer.IssueToken(tool, entity, drawn.value, minted, now);
    return Proposed(drawn.value, confirmer.ttl / SECOND);
  }

  /** The verdict lets the call act now. */
  predicate Acts(verdict: Verdict) {
    verdict.Bypassed? || verdict.Confirmed?
  }

  /** What a call leaves of the store. */
  function LeftOf(s: State, id: int, verdict: Verdict): State {
    if id in s.items && Acts(verdict) then StoreModel.DeleteItem(s, id).0 else s
  }

  datatype Reply = Gone(item: Item, path: string) | Asked(item: Item, path: string, token: string, seconds: int) | Failed

  /**
   The item is read before anything is decided. It goes exactly when the call may act;
   otherwise the store is as it was, and a missing item spends no token.
   */
  method DeleteItem(repos: Repos, confirmer: Confirmer, id: int, request: Request, drawn: Option<string>, minted: int, now: int,
      fold: string -> string)
    returns (reply: Reply)
    requires Sound(repos.View())
    modifies repos, confirmer`tokens
    ensures RowsKeyed(old(repos.View()).containers)
    ensures id !in old(repos.View()).items ==>
      reply == Failed && repos.View() == old(repos.View()) && confirmer.tokens == old(confirmer.tokens)
    ensures id in old(repos.View()).items ==>
      var s, item := old(repos.View()), old(repos.View()).items[id];
      var (tokens, verdict) := Decide(old(confirmer.tokens), confirmer.ttl, DELETE_ITEM, id, request, drawn, minted, now);
      var path := PathOfPlace(s.rooms, s.containers, item.location);
      && confirmer.tokens == tokens
      && repos.View() == LeftOf(s, id, verdict)
      && reply == if Acts(verdict) then Gone(item, path)
        else if verdict.Proposed? then Asked(item, path, verdict.token, verdict.seconds) else Failed
  {
    hide Sound, Decide, PathOfPlace, IndexOf;
    ghost var s := repos.View();
    SoundRows(s);
    if id !in repos.items {
      return Failed;
    }
    var item := repos.items[id];
    var rooms := repos.ListRooms();
    var containers := repos.ListContainers();
    var index := NewLocationIndex(rooms, containers, fold);
    IndexTables(s, rooms, containers, fold);
    var path := Path(index, item.location);
    var verdict := AuthoriseDestructive(confirmer, DELETE_ITEM, id, request, drawn, minted, now);
    if verdict.Refused? || verdict.NoToken? {
      return Failed;
    }
    if verdict.Proposed? {
      return Asked(item, path, verdict.token, verdict.seconds);
    }
    var deleted := repos.DeleteItem(id);
    return Gone(item, path);
  }

  /** The step of a run a call takes, if it touches the pending tokens at all. */
  function StepOf(tool: string, entity: int, request: Request, drawn: Option<string>, minted: int, now: int): Option<Step> {
    if request.confirm || request.bypass then None
    else if request.token != "" then Some(Tried(request.token, tool, entity, now))
    else if drawn.None? then None
    else Some(Issued(drawn.value, tool, entity, minted, now))
  }

  /**
   Every decision is a step of the run of tokens or leaves them alone, and a call is
   confirmed exactly when its step redeems.
   */
  lemma DecisionIsStep(steps: seq<Step>, ttl: int, tool: string, entity: int, request: Request, drawn: Option<string>, minted: int, now: int)
    ensures var (tokens, verdict) := Decide(After(steps, ttl), ttl, tool, entity, request, drawn, minted, now);
      var step := StepOf(tool, entity, request, drawn, minted, now);
      if step.None? then tokens == After(steps, ttl) && !verdict.Confirmed?
      else tokens == After(steps + [step.value], ttl) && (verdict.Confirmed? <==> Redeemed(steps + [step.value], ttl, |steps|))
  {
    var step := StepOf(tool, entity, request, drawn, minted, now);
    if step.Some? {
      assert (steps + [step.value])[..|steps|] == steps;
    }
  }

  // ---- What a call may do ------------------------------------------------------------------

  /**
   After a run of calls, the token answers a proposal made in it: for this very tool and
   entity, unexpired, and not redeemed since.
   */
  ghost predicate Authorised(steps: seq<Step>, ttl: int, tool: string, entity: int, token: string, now: int) {
    exists j :: Answers(steps + [Tried(token, tool, entity, now)], ttl, j, |steps|)
  }

  lemma TriedExactly(steps: seq<Step>, ttl: int, tool: string, entity: int, token: string, now: int)
    requires Proper(steps) && forall i :: 0 <= i < |steps| ==> steps[i].now <= now
    ensures Redeem(After(steps, ttl), tool, token, entity, now).1 <==> Authorised(steps, ttl, tool, entity, token, now)
  {
    hide After, Redeem, Answers;
    var step := Tried(token, tool, entity, now);
    var all := steps + [step];
    assert all[..|steps|] == steps && all[|steps|] == step;
    OneMoreProper(steps, step);
    RedeemedExactly(all, ttl, |steps|);
  }

  lemma OneMoreProper(steps: seq<Step>, step: Step)
    requires Proper(steps) && step.Tried? && forall i :: 0 <= i < |steps| ==> steps[i].now <= step.now
    ensures Proper(steps + [step])
  {
  }

  /**
   What is decided on a call, whatever calls came before it. It may act exactly when its
   caller may skip the question, when it confirms outright, or when its token answers an
   open proposal; a token that answers none is refused; and a call with neither leave nor
   token proposes, with the token that was drawn and the seconds it lasts.
   */
  lemma DecisionExactly(steps: seq<Step>, ttl: int, tool: string, entity: int, request: Request, drawn: Option<string>, minted: int, now: int)
    requires Proper(steps) && forall i :: 0 <= i < |steps| ==> steps[i].now <= now
    ensures var verdict := Decide(After(steps, ttl), ttl, tool, entity, request, drawn, minted, now).1;
      var leave := request.bypass || request.confirm;
      var answers := request.token != "" && Authorised(steps, ttl, tool, entity, request.token, now);
      && (Acts(verdict) <==> leave || answers)
      && (verdict.Bypassed? <==> leave)
      && (verdict.Confirmed? <==> !leave && answers)
      && (verdict.Refused? <==> !leave && request.token != "" && !answers)
      && (verdict.Proposed? <==> !leave && request.token == "" && drawn.Some?)
      && (verdict.Proposed? ==> verdict == Proposed(drawn.value, ttl / 1_000_000_000))
      && (verdict.NoToken? <==> !leave && request.token == "" && drawn.None?)
  {
    hide After, Redeem, Issue, Authorised;
    TriedExactly(steps, ttl, tool, entity, request.token, now);
  }

  /** The proposal a token answers was made earlier in the run. */
  lemma AuthorisedProposed(steps: seq<Step>, ttl: int, tool: string, entity: int, token: string, now: int) returns (j: int)
    requires Authorised(steps, ttl, tool, entity, token, now)
    ensures 0 <= j < |steps| && steps[j].Issued?
    ensures steps[j].token == token && steps[j].tool == tool && steps[j].entity == entity && now < steps[j].minted + ttl
  {
    j :| Answers(steps + [Tried(token, tool, entity, now)], ttl, j, |steps|);
  }

  /**
   An item goes exactly when it is there and the call may act; then it alone goes. Without
   leave that takes a proposal to delete this very item, made earlier, whose token comes
   back before it expires.
   */
  lemma GoneOnlyIfProposed(s: State, steps: seq<Step>, ttl: int, id: int, request: Request, drawn: Option<string>, minted: int, now: int)
    requires Proper(steps) && forall i :: 0 <= i < |steps| ==> steps[i].now <= now
    ensures var verdict := Decide(After(steps, ttl), ttl, DELETE_ITEM, id, request, drawn, minted, now).1;
      var t := LeftOf(s, id, verdict);
      var leave := request.bypass || request.confirm;
      && t.rooms == s.rooms && t.containers == s.containers
      && t.items == (if leave || (request.token != "" && Authorised(steps, ttl, DELETE_ITEM, id, request.token, now))
                     then s.items - {id} else s.items)
      && (id in s.items && id !in t.items && !leave ==>
        exists j :: 0 <= j < |steps| && steps[j].Issued? && steps[j].token == request.token
          && steps[j].tool == "delete_item" && steps[j].entity == id && now < steps[j].minted + ttl)
  {
    hide After, Decide, Authorised;
    DecisionExactly(steps, ttl, DELETE_ITEM, id, request, drawn, minted, now);
    assert id !in s.items ==> s.items - {id} == s.items;
    if request.token != "" && Authorised(steps, ttl, DELETE_ITEM, id, request.token, now) {
      var j := AuthorisedProposed(steps, ttl, DELETE_ITEM, id, request.token, now);
    }
  }
}
