/** The ledgers as files that are read whole and appended to. */
module LedgerObject {
  import opened Options
  import opened Ledger
  import opened Sequences

  class RunLedger {
    const x: Crypto
    const dispatch: seq<string>
    var claims: seq<Event>
    var results: seq<Row>
    var chain: seq<ChainRow>
    var archive: seq<Archived>

    function View(): Books
      reads this
    {
      Books(dispatch, claims, results, chain, archive)
    }

    constructor (crypto: Crypto, runs: seq<string>)
      requires Distinct(runs)
      ensures x == crypto && View() == Opening(runs) && Sound(crypto, View())
    {
      x, dispatch := crypto, runs;
      claims, results, chain, archive := [], [], [], [];
    }

    /** _claim_states: one pass over the log, refusing it at the first bad event. */
    method ClaimStates() returns (c: Option<Claims>)
      ensures c == Replay(dispatch, claims)
    {
      var states: map<string, Event>, used: set<string> := map[], {};
      for i := 0 to |claims|
        invariant Replay(dispatch, claims[..i]) == Some(Claims(states, used))
      {
        var event := claims[i];
        ReplaySnoc(dispatch, claims[..i], event);
        assert claims[..i + 1] == claims[..i] + [event];
        var previous := if event.key in states then Some(states[event.key].kind) else None;
        var legal := false;
        if event.key in dispatch {
          if event.kind == Claimed {
            legal := previous.None? || previous.value in {Recovered, Closed};
          } else if event.kind == Assigned {
            legal := previous == Some(Claimed) && event.thread.Some? && event.thread.value != "" && event.thread.value !in used;
            if legal {
              used := used + {event.thread.value};
            }
          } else if event.kind == Recovered {
            legal := previous == Some(Claimed);
          } else if event.kind == Closed {
            legal := previous == Some(Assigned) && event.thread == states[event.key].thread;
          }
        }
        if !legal {
          BadLogStaysBad(dispatch, claims, i + 1);
          return None;
        }
        states := states[event.key := event];
      }
      assert claims[..|claims|] == claims;
      c := Some(Claims(states, used));
    }

    /** verify_results: walks the results against the chain, appending its last row
        if a crash lost it, then checks the rows against each other. */
    method VerifyResults() returns (ok: bool)
      modifies `chain
      ensures View() == Verified(x, old(View())) && (ok <==> VerifyOk(x, old(View())))
      ensures ok ==> chain == ChainOf(x, results) && |chain| == |results|
      ensures old(chain) <= chain && |chain| <= |old(chain)| + 1
      ensures (|old(chain)| > |results| || |old(chain)| + 1 < |results|) ==> !ok && chain == old(chain)
    {
      if !Distinct(dispatch) || |chain| > |results| || |results| - |chain| > 1 {
        return false;
      }
      var repaired;
      ok, repaired := CompareChain(x, dispatch, results, chain);
      chain := repaired;
      if !ok {
        return;
      }
      var full := ChainOf(x, results);
      assert full[..|full|] == full;
      ok := ValidOnce(results) && Distinct(archive) && forall i :: 0 <= i < |archive| ==> HasPair(results, archive[i].key, archive[i].thread);
    }

    /** pending_runs after its verification. */
    method PendingRuns(limit: nat, c: Claims) returns (rows: seq<string>, ghost picks: seq<nat>)
      ensures rows == Take(Pending(dispatch, results, c), limit)
      ensures HandsOut(dispatch, results, c, limit, rows, picks)
    {
      picks := PendingInOrder(dispatch, results, c, limit);
      var completed := set i | 0 <= i < |results| && !results[i].infra :: results[i].key;
      rows := [];
      for i := 0 to |dispatch|
        invariant rows == Pending(dispatch[..i], results, c)
      {
        assert dispatch[..i + 1][..i] == dispatch[..i];
        assert dispatch[i] in completed <==> Done(results, dispatch[i]);
        if dispatch[i] !in completed && !Active(c, dispatch[i]) {
          rows := rows + [dispatch[i]];
        }
      }
      assert dispatch[..|dispatch|] == dispatch;
      rows := Take(rows, limit);
    }

    method ClaimRuns(limit: nat, at: string) returns (rows: Option<seq<string>>, ghost picks: seq<nat>)
      modifies `chain, `claims
      ensures View() == Perform(x, old(View()), Claim(limit, at))
      ensures rows.Some? <==> Accepts(x, old(View()), Claim(limit, at))
      ensures rows.Some? ==> claims == old(claims) + ClaimEvents(rows.value, at)
      ensures rows.Some? ==> |claims| == |old(claims)| + |rows.value| && old(claims) <= claims
      ensures rows.Some? ==> forall i :: 0 <= i < |rows.value| ==> claims[|old(claims)| + i] == Event(rows.value[i], Claimed, None, at)
      ensures rows.Some? ==> Replay(dispatch, old(claims)).Some? && HandsOut(dispatch, results, Replay(dispatch, old(claims)).value, limit, rows.value, picks)
      ensures rows.None? ==> claims == old(claims)
    {
      picks := [];
      rows := None;
      if limit < 1 {
        return;
      }
      var ok := VerifyResults();
      if !ok {
        return;
      }
      var c := ClaimStates();
      if c.None? {
        return;
      }
      hide VerifyOk, Verified, Replay, Pending, ClaimEvents;
      var keys;
      keys, picks := PendingRuns(limit, c.value);
      EventsAt(keys, at);
      AppendClaims(keys, at);
      rows := Some(keys);
    }

    method AppendClaims(keys: seq<string>, at: string)
      modifies `claims
      ensures claims == old(claims) + ClaimEvents(keys, at)
    {
      for i := 0 to |keys|
        invariant claims == old(claims) + ClaimEvents(keys[..i], at)
      {
        assert keys[..i + 1][..i] == keys[..i];
        claims := claims + [Event(keys[i], Claimed, None, at)];
      }
      assert keys[..|keys|] == keys;
    }

    method AssignClaim(key: string, thread: string, at: string) returns (ok: bool)
      modifies `claims
      ensures View() == Perform(x, old(View()), Assign(key, thread, at))
      ensures ok <==> StandsAt(dispatch, old(claims), key, Claimed) && forall i :: 0 <= i < |results| ==> results[i].thread != thread
      ensures claims == if ok then old(claims) + [Event(key, Assigned, Some(thread), at)] else old(claims)
    {
      StandsAtIff(dispatch, claims, key, Claimed);
      hide StandsAt, Replay;
      var c := ClaimStates();
      if c.None? || key !in c.value.states || c.value.states[key].kind != Claimed {
        return false;
      }
      if exists i :: 0 <= i < |results| && results[i].thread == thread {
        return false;
      }
      claims := claims + [Event(key, Assigned, Some(thread), at)];
      ok := true;
    }

    method RecoverClaim(key: string, at: string) returns (ok: bool)
      modifies `claims
      ensures View() == Perform(x, old(View()), Recover(key, at))
      ensures ok <==> StandsAt(dispatch, old(claims), key, Claimed)
      ensures claims == if ok then old(claims) + [Event(key, Recovered, None, at)] else old(claims)
    {
      StandsAtIff(dispatch, claims, key, Claimed);
      hide StandsAt, Replay;
      var c := ClaimStates();
      if c.None? || key !in c.value.states || c.value.states[key].kind != Claimed {
        return false;
      }
      claims := claims + [Event(key, Recovered, None, at)];
      ok := true;
    }

    /** record_result; `appends` is how many of its three writes reach the disk. */
    method RecordResult(row: Row, at: string, appends: nat) returns (ok: bool)
      modifies `chain, `claims, `results
      ensures View() == Perform(x, old(View()), Record(row, at, appends))
      ensures ok <==> Accepts(x, old(View()), Record(row, at, appends))
      ensures ok ==> row.key in dispatch && StandsAt(dispatch, old(claims), row.key, Assigned)
      ensures ok ==> forall i :: 0 <= i < |old(results)| && old(results)[i].key == row.key ==> old(results)[i].infra
      ensures results == if ok && appends >= 1 then old(results) + [row] else old(results)
      ensures claims == if ok && appends >= 3 then old(claims) + [Event(row.key, Closed, Some(row.thread), at)] else old(claims)
      ensures ok ==> |chain| == |old(results)| + (if appends >= 2 then 1 else 0)
    {
      if row.key !in dispatch {
        return false;
      }
      if exists i :: 0 <= i < |results| && results[i].key == row.key && !results[i].infra {
        return false;
      }
      var verified := VerifyResults();
      if !verified {
        return false;
      }
      StandsAtIff(dispatch, claims, row.key, Assigned);
      var c := ClaimStates();
      hide VerifyOk, Verified, Replay, StandsAt;
      if c.None? || row.key !in c.value.states || c.value.states[row.key].kind != Assigned || c.value.states[row.key].thread != Some(row.thread) {
        return false;
      }
      ok := true;
      if appends >= 1 {
        results := results + [row];
      }
      if appends >= 2 {
        var previous := GENESIS;
        if chain != [] {
          previous := chain[|chain| - 1].chainSha;
        }
        chain := chain + [Link(x, row, previous)];
      }
      if appends >= 3 {
        claims := claims + [Event(row.key, Closed, Some(row.thread), at)];
      }
    }

    method MarkArchived(key: string, thread: string) returns (ok: bool)
      modifies `chain, `archive
      ensures View() == Perform(x, old(View()), Archive(key, thread))
      ensures ok <==> Accepts(x, old(View()), Archive(key, thread))
      ensures archive == if ok then old(archive) + [Archived(key, thread)] else old(archive)
      ensures ok ==> exists i :: 0 <= i < |results| && results[i].key == key && results[i].thread == thread
      ensures ok ==> forall i :: 0 <= i < |old(archive)| ==> old(archive)[i].thread != thread
    {
      var verified := VerifyResults();
      if !verified {
        return false;
      }
      hide VerifyOk, Verified;
      if !HasPair(results, key, thread) {
        return false;
      }
      if exists i :: 0 <= i < |archive| && archive[i].thread == thread {
        return false;
      }
      archive := archive + [Archived(key, thread)];
      ok := true;
    }
  }

  predicate RowKnown(dispatch: seq<string>, r: Row) {
    r.key in dispatch && r.thread != ""
  }

  /** The chain hash before row n. */
  function Before(chain: seq<ChainRow>, n: nat): string
    requires n <= |chain|
  {
    if n == 0 then GENESIS else chain[n - 1].chainSha
  }

  lemma StartsAtGenesis(chain: seq<ChainRow>)
    ensures Before(chain, 0) == GENESIS
  {
  }

  lemma BeforeNext(chain: seq<ChainRow>, n: nat)
    requires n < |chain|
    ensures Before(chain, n + 1) == chain[n].chainSha
  {
  }

  lemma LinkBefore(x: Crypto, results: seq<Row>, n: nat)
    requires n < |results|
    ensures ChainOf(x, results)[n] == Link(x, results[n], Before(ChainOf(x, results), n))
  {
    LinkAt(x, results, n);
  }

  /** verify_results' loop over results and chain. */
  method CompareChain(x: Crypto, dispatch: seq<string>, results: seq<Row>, stored: seq<ChainRow>) returns (ok: bool, chain: seq<ChainRow>)
    requires |stored| <= |results| <= |stored| + 1
    ensures ok <==> stored == ChainOf(x, results)[..|stored|] && forall i :: 0 <= i < |results| ==> RowKnown(dispatch, results[i])
    ensures chain == if ok then ChainOf(x, results) else stored
  {
    var previous := GENESIS;
    chain := stored;
    ghost var full := ChainOf(x, results);
    hide *;
    assert Before(full, 0) == GENESIS by { StartsAtGenesis(full); }
    for index := 0 to |results|
      invariant previous == Before(full, index)
      invariant chain == if index > |stored| then stored + [full[index - 1]] else stored
      invariant forall i :: 0 <= i < index ==> RowKnown(dispatch, results[i])
      invariant forall i :: 0 <= i < index && i < |stored| ==> stored[i] == full[i]
    {
      var record := results[index];
      if !RowKnown(dispatch, record) {
        return false, stored;
      }
      var wanted := Link(x, record, previous);
      LinkBefore(x, results, index);
      if index < |stored| {
        if stored[index] != wanted {
          assert full[..|stored|][index] == full[index];
          return false, stored;
        }
      } else {
        chain := chain + [wanted];
      }
      BeforeNext(full, index);
      previous := wanted.chainSha;
    }
    ok := true;
  }

  lemma {:induction false} BadLogStaysBad(dispatch: seq<string>, claims: seq<Event>, n: nat)
    requires n <= |claims| && Replay(dispatch, claims[..n]).None?
    ensures Replay(dispatch, claims).None?
  {
    if Replay(dispatch, claims).Some? {
      ReplayPrefix(dispatch, claims, n);
    }
  }
}
