/** The evaluation ledgers (tools/unity_eval/measure_cases.py:519-605, 694-890):
    append-only claims, results, hash chain and archive, read back by replay. */
module Ledger {
  import opened Options
  import opened Sequences

  datatype Kind = Claimed | Assigned | Recovered | Closed | OtherKind

  datatype Event = Event(key: string, kind: Kind, thread: Option<string>, at: string)

  /** A result row; `rest` is everything the ledgers do not look at. */
  datatype Row = Row(key: string, thread: string, infra: bool, rest: string)

  datatype ChainRow = ChainRow(key: string, recordSha: string, previous: string, chainSha: string)

  datatype Archived = Archived(key: string, thread: string)

  datatype Books = Books(dispatch: seq<string>, claims: seq<Event>, results: seq<Row>, chain: seq<ChainRow>, archive: seq<Archived>)

  /** The digest and the canonical rendering of a row. */
  datatype Crypto = Crypto(sha: string -> string, canonical: Row -> string)

  // ---- replay of the claims log ----

  datatype Claims = Claims(states: map<string, Event>, used: set<string>)

  function Follow(dispatch: seq<string>, c: Claims, e: Event): Option<Claims> {
    if e.key !in dispatch then None
    else
      var previous := if e.key in c.states then Some(c.states[e.key]) else None;
      var next := Claims(c.states[e.key := e], c.used);
      match e.kind
      case Claimed =>
        if previous.None? || previous.value.kind in {Recovered, Closed} then Some(next) else None
      case Assigned =>
        if previous.None? || previous.value.kind != Claimed then None
        else if e.thread.None? || e.thread.value == "" || e.thread.value in c.used then None
        else Some(next.(used := c.used + {e.thread.value}))
      case Recovered =>
        if previous.Some? && previous.value.kind == Claimed then Some(next) else None
      case Closed =>
        if previous.Some? && previous.value.kind == Assigned && e.thread == previous.value.thread then Some(next) else None
      case OtherKind => None
  }

  /** None is the ValueError of an invalid log. */
  function Replay(dispatch: seq<string>, claims: seq<Event>): Option<Claims> {
    if claims == [] then Some(Claims(map[], {}))
    else
      match Replay(dispatch, claims[..|claims| - 1])
      case None => None
      case Some(c) => Follow(dispatch, c, claims[|claims| - 1])
  }

  lemma ReplaySnoc(dispatch: seq<string>, claims: seq<Event>, e: Event)
    ensures Replay(dispatch, claims + [e]) ==
      match Replay(dispatch, claims) { case None => None case Some(c) => Follow(dispatch, c, e) }
  {
    assert (claims + [e])[..|claims|] == claims;
  }

  lemma {:induction false} ReplayPrefix(dispatch: seq<string>, claims: seq<Event>, n: nat)
    requires n <= |claims| && Replay(dispatch, claims).Some?
    ensures Replay(dispatch, claims[..n]).Some?
  {
    if n < |claims| {
      ReplayPrefix(dispatch, claims[..|claims| - 1], n);
      assert claims[..|claims| - 1][..n] == claims[..n];
    } else {
      assert claims[..n] == claims;
    }
  }

  /** The state of a key is its last event. */
  lemma {:induction false} StateIsLast(dispatch: seq<string>, claims: seq<Event>, key: string) returns (i: nat)
    requires Replay(dispatch, claims).Some? && key in Replay(dispatch, claims).value.states
    ensures i < |claims| && claims[i] == Replay(dispatch, claims).value.states[key] && claims[i].key == key
    ensures forall j :: i < j < |claims| ==> claims[j].key != key
  {
    var n := |claims| - 1;
    if claims[n].key == key {
      i := n;
    } else {
      i := StateIsLast(dispatch, claims[..n], key);
    }
  }

  predicate AssignedAt(claims: seq<Event>, i: nat, key: string, thread: string) {
    i < |claims| && claims[i].kind == Assigned && claims[i].key == key && claims[i].thread == Some(thread)
  }

  lemma {:induction false} UsedAreAssigned(dispatch: seq<string>, claims: seq<Event>)
    requires Replay(dispatch, claims).Some?
    ensures forall i :: 0 <= i < |claims| && claims[i].kind == Assigned ==>
      claims[i].thread.Some? && claims[i].thread.value != "" && claims[i].thread.value in Replay(dispatch, claims).value.used
    ensures forall t :: t in Replay(dispatch, claims).value.used ==>
      exists i :: 0 <= i < |claims| && AssignedAt(claims, i, claims[i].key, t)
  {
    if claims == [] {
    } else {
      var n := |claims| - 1;
      UsedAreAssigned(dispatch, claims[..n]);
      forall t | t in Replay(dispatch, claims).value.used
        ensures exists i :: 0 <= i < |claims| && AssignedAt(claims, i, claims[i].key, t)
      {
        if t in Replay(dispatch, claims[..n]).value.used {
          var i :| 0 <= i < n && AssignedAt(claims[..n], i, claims[..n][i].key, t);
          assert AssignedAt(claims, i, claims[i].key, t);
        } else {
          assert AssignedAt(claims, n, claims[n].key, t);
        }
      }
    }
  }

  /** In a log that replays, a thread is assigned once, ever. */
  lemma {:induction false} ThreadAssignedOnce(dispatch: seq<string>, claims: seq<Event>, i: nat, j: nat, thread: string)
    requires Replay(dispatch, claims).Some?
    requires i < |claims| && j < |claims|
    requires AssignedAt(claims, i, claims[i].key, thread) && AssignedAt(claims, j, claims[j].key, thread)
    ensures i == j
  {
    var n := |claims| - 1;
    UsedAreAssigned(dispatch, claims[..n]);
    if i < n && j < n {
      ThreadAssignedOnce(dispatch, claims[..n], i, j, thread);
    }
  }

  /** In a log that replays, a key claimed twice was recovered or closed in between:
      it never has two active claims. */
  lemma {:induction false} ReclaimedOnlyAfterRelease(dispatch: seq<string>, claims: seq<Event>, i: nat, j: nat) returns (m: nat)
    requires Replay(dispatch, claims).Some? && i < j < |claims|
    requires claims[i].kind == Claimed && claims[j].kind == Claimed && claims[i].key == claims[j].key
    ensures i < m < j && claims[m].key == claims[i].key && claims[m].kind in {Recovered, Closed}
  {
    ReplayPrefix(dispatch, claims, j + 1);
    ReplayPrefix(dispatch, claims, j);
    assert claims[..j + 1] == claims[..j] + [claims[j]];
    ReplaySnoc(dispatch, claims[..j], claims[j]);
    StatePresent(dispatch, claims[..j], i);
    m := StateIsLast(dispatch, claims[..j], claims[i].key);
  }

  lemma {:induction false} StatePresent(dispatch: seq<string>, claims: seq<Event>, i: nat)
    requires Replay(dispatch, claims).Some? && i < |claims|
    ensures claims[i].key in Replay(dispatch, claims).value.states
  {
    if i < |claims| - 1 {
      StatePresent(dispatch, claims[..|claims| - 1], i);
    }
  }

  // ---- which logs replay ----

  /** The latest of the first n events about the key. */
  function Latest(claims: seq<Event>, n: nat, key: string): (j: Option<nat>)
    requires n <= |claims|
    ensures j.Some? ==> j.value < n && claims[j.value].key == key && forall m :: j.value < m < n ==> claims[m].key != key
    ensures j.None? ==> forall m :: 0 <= m < n ==> claims[m].key != key
  {
    if n == 0 then None else if claims[n - 1].key == key then Some(n - 1) else Latest(claims, n - 1, key)
  }

  /** A dispatched key is claimed when new or given up, assigned a thread never used
      before once claimed, recovered while claimed, and closed by the thread it was
      assigned to. */
  predicate Legal(dispatch: seq<string>, claims: seq<Event>, i: nat)
    requires i < |claims|
  {
    var e, prior := claims[i], Latest(claims, i, claims[i].key);
    e.key in dispatch &&
    match e.kind
    case Claimed => prior.None? || claims[prior.value].kind == Recovered || claims[prior.value].kind == Closed
    case Assigned =>
      && prior.Some? && claims[prior.value].kind == Claimed && e.thread.Some? && e.thread.value != ""
      && forall m :: 0 <= m < i && claims[m].kind == Assigned ==> claims[m].thread != e.thread
    case Recovered => prior.Some? && claims[prior.value].kind == Claimed
    case Closed => prior.Some? && claims[prior.value].kind == Assigned && claims[prior.value].thread == e.thread
    case OtherKind => false
  }

  /** The log is legal and the latest event about the key is of that kind. */
  predicate StandsAt(dispatch: seq<string>, claims: seq<Event>, key: string, kind: Kind) {
    && (forall i :: 0 <= i < |claims| ==> Legal(dispatch, claims, i))
    && var j := Latest(claims, |claims|, key); j.Some? && claims[j.value].kind == kind
  }

  lemma {:induction false} LatestInPrefix(claims: seq<Event>, m: nat, n: nat, key: string)
    requires n <= m <= |claims|
    ensures Latest(claims[..m], n, key) == Latest(claims, n, key)
  {
    if n == 0 {
    } else {
      LatestInPrefix(claims, m, n - 1, key);
    }
  }

  /** The state of a key is its latest event. */
  lemma {:induction false} StateIsLatest(dispatch: seq<string>, claims: seq<Event>, key: string)
    requires Replay(dispatch, claims).Some?
    ensures var c, j := Replay(dispatch, claims).value, Latest(claims, |claims|, key);
      (key in c.states <==> j.Some?) && (j.Some? ==> c.states[key] == claims[j.value])
  {
    if claims == [] {
    } else {
      var n := |claims| - 1;
      StateIsLatest(dispatch, claims[..n], key);
      LatestInPrefix(claims, n, n, key);
    }
  }

  lemma LegalSnoc(dispatch: seq<string>, claims: seq<Event>)
    requires claims != [] && Replay(dispatch, claims[..|claims| - 1]).Some?
    ensures Follow(dispatch, Replay(dispatch, claims[..|claims| - 1]).value, claims[|claims| - 1]).Some? <==> Legal(dispatch, claims, |claims| - 1)
  {
    var n, front := |claims| - 1, claims[..|claims| - 1];
    StateIsLatest(dispatch, front, claims[n].key);
    LatestInPrefix(claims, n, n, claims[n].key);
    UsedAreAssigned(dispatch, front);
    var used := Replay(dispatch, front).value.used;
    hide Replay, Latest;
    forall m | 0 <= m < n && claims[m].kind == Assigned
      ensures claims[m].thread.Some? && claims[m].thread.value in used
    {
      assert front[m] == claims[m];
    }
    forall t | t in used
      ensures exists m :: 0 <= m < n && claims[m].kind == Assigned && claims[m].thread == Some(t)
    {
      var i :| 0 <= i < n && AssignedAt(front, i, front[i].key, t);
      assert front[i] == claims[i];
    }
  }

  lemma LegalInPrefix(dispatch: seq<string>, claims: seq<Event>, n: nat, i: nat)
    requires i < n <= |claims|
    ensures Legal(dispatch, claims[..n], i) <==> Legal(dispatch, claims, i)
  {
    LatestInPrefix(claims, n, i, claims[i].key);
    assert forall m :: 0 <= m < n ==> claims[..n][m] == claims[m];
  }

  /** The log replays exactly when each of its events is legal where it stands. */
  lemma {:induction false} ReplaysIff(dispatch: seq<string>, claims: seq<Event>)
    ensures Replay(dispatch, claims).Some? <==> forall i :: 0 <= i < |claims| ==> Legal(dispatch, claims, i)
  {
    if claims == [] {
    } else {
      var n := |claims| - 1;
      ReplaysIff(dispatch, claims[..n]);
      forall i | 0 <= i < n
        ensures Legal(dispatch, claims[..n], i) <==> Legal(dispatch, claims, i)
      {
        LegalInPrefix(dispatch, claims, n, i);
      }
      if Replay(dispatch, claims[..n]).Some? {
        LegalSnoc(dispatch, claims);
      }
      hide Legal, Follow;
    }
  }

  lemma StandsAtIff(dispatch: seq<string>, claims: seq<Event>, key: string, kind: Kind)
    ensures StandsAt(dispatch, claims, key, kind) <==>
      var c := Replay(dispatch, claims); c.Some? && key in c.value.states && c.value.states[key].kind == kind
  {
    ReplaysIff(dispatch, claims);
    if Replay(dispatch, claims).Some? {
      StateIsLatest(dispatch, claims, key);
    }
    hide Replay, Legal, Latest;
  }

  // ---- the hash chain ----

  function Zeros(n: nat): (s: string)
    ensures |s| == n
  {
    if n == 0 then "" else Zeros(n - 1) + "0"
  }

  const GENESIS := Zeros(64)

  function Tip(chain: seq<ChainRow>): string {
    if chain == [] then GENESIS else chain[|chain| - 1].chainSha
  }

  function Link(x: Crypto, r: Row, previous: string): ChainRow {
    var recordSha := x.sha(x.canonical(r));
    ChainRow(r.key, recordSha, previous, x.sha(previous + recordSha))
  }

  /** The chain of a list of results. */
  function ChainOf(x: Crypto, results: seq<Row>): (chain: seq<ChainRow>)
    ensures |chain| == |results|
  {
    if results == [] then []
    else
      var before := ChainOf(x, results[..|results| - 1]);
      before + [Link(x, results[|results| - 1], Tip(before))]
  }

  lemma ChainSnoc(x: Crypto, results: seq<Row>, r: Row)
    ensures ChainOf(x, results + [r]) == ChainOf(x, results) + [Link(x, r, Tip(ChainOf(x, results)))]
  {
    assert (results + [r])[..|results|] == results;
  }

  lemma LinkAt(x: Crypto, results: seq<Row>, n: nat)
    requires n < |results|
    ensures ChainOf(x, results)[n] == Link(x, results[n], Tip(ChainOf(x, results)[..n]))
  {
    ChainPrefix(x, results, n + 1);
    ChainPrefix(x, results, n);
    assert results[..n + 1] == results[..n] + [results[n]];
    ChainSnoc(x, results[..n], results[n]);
    assert ChainOf(x, results)[n] == ChainOf(x, results)[..n + 1][n];
  }

  lemma {:induction false} ChainPrefix(x: Crypto, results: seq<Row>, n: nat)
    requires n <= |results|
    ensures ChainOf(x, results)[..n] == ChainOf(x, results[..n])
  {
    if n < |results| {
      var k := |results| - 1;
      ChainPrefix(x, results[..k], n);
      assert results[..k][..n] == results[..n];
      assert ChainOf(x, results)[..n] == ChainOf(x, results[..k])[..n];
    } else {
      assert results[..n] == results;
    }
  }

  datatype Breach = NoBreach | Collision(a: string, b: string) | GenesisPreimage(a: string)

  predicate Genuine(x: Crypto, b: Breach) {
    match b
    case NoBreach => false
    case Collision(p, q) => p != q && x.sha(p) == x.sha(q)
    case GenesisPreimage(p) => x.sha(p) == GENESIS
  }

  lemma SplitAt64(a: string, b: string, c: string, d: string)
    requires |a| == |c| && a + b == c + d
    ensures a == c && b == d
  {
    assert a == (a + b)[..|a|] && c == (c + d)[..|c|];
    assert b == (a + b)[|a|..] && d == (c + d)[|c|..];
  }

  ghost predicate FixedLength(x: Crypto) {
    forall s :: |x.sha(s)| == 64
  }

  lemma TipLength(x: Crypto, results: seq<Row>)
    requires FixedLength(x)
    ensures |Tip(ChainOf(x, results))| == 64
  {
  }

  ghost predicate CanonicalTellsApart(x: Crypto) {
    forall r, t :: x.canonical(r) == x.canonical(t) ==> r == t
  }

  lemma LinkPins(x: Crypto, r: Row, t: Row, p: string, q: string) returns (breach: Breach)
    requires |p| == |q| && CanonicalTellsApart(x)
    requires Link(x, r, p).chainSha == Link(x, t, q).chainSha
    ensures (p == q && r == t) || Genuine(x, breach)
  {
    var lr, lt := Link(x, r, p), Link(x, t, q);
    if p + lr.recordSha != q + lt.recordSha {
      return Collision(p + lr.recordSha, q + lt.recordSha);
    }
    SplitAt64(p, lr.recordSha, q, lt.recordSha);
    if x.canonical(r) != x.canonical(t) {
      return Collision(x.canonical(r), x.canonical(t));
    }
    breach := NoBreach;
  }

  lemma TipOfLast(x: Crypto, results: seq<Row>)
    requires results != [] && FixedLength(x)
    ensures var before := Tip(ChainOf(x, results[..|results| - 1]));
      |before| == 64 && Tip(ChainOf(x, results)) == Link(x, results[|results| - 1], before).chainSha
  {
    TipLength(x, results[..|results| - 1]);
  }

  /** The final chain hash pins the whole ledger: two ledgers ending in the same
      hash are equal, or they exhibit a collision of the digest or an input that
      digests to the all-zero genesis value. */
  lemma {:induction false} TipPinsLedger(x: Crypto, a: seq<Row>, b: seq<Row>) returns (breach: Breach)
    requires FixedLength(x) && CanonicalTellsApart(x)
    requires Tip(ChainOf(x, a)) == Tip(ChainOf(x, b))
    ensures a == b || Genuine(x, breach)
  {
    hide ChainOf, Link;
    breach := NoBreach;
    if a == [] && b == [] {
    } else if a == [] || b == [] {
      EmptyTip(x);
      breach := NotGenesis(x, if a == [] then b else a);
    } else {
      var m, n := |a| - 1, |b| - 1;
      TipOfLast(x, a);
      TipOfLast(x, b);
      breach := LinkPins(x, a[m], b[n], Tip(ChainOf(x, a[..m])), Tip(ChainOf(x, b[..n])));
      if !Genuine(x, breach) {
        breach := TipPinsLedger(x, a[..m], b[..n]);
        assert a == a[..m] + [a[m]] && b == b[..n] + [b[n]];
      }
    }
  }

  lemma EmptyTip(x: Crypto)
    ensures Tip(ChainOf(x, [])) == GENESIS
  {
  }

  lemma NotGenesis(x: Crypto, c: seq<Row>) returns (breach: Breach)
    requires c != [] && FixedLength(x) && Tip(ChainOf(x, c)) == GENESIS
    ensures Genuine(x, breach)
  {
    TipOfLast(x, c);
    var l := Link(x, c[|c| - 1], Tip(ChainOf(x, c[..|c| - 1])));
    breach := GenesisPreimage(l.previous + l.recordSha);
  }

  // ---- verify_results ----

  predicate RowsKnown(b: Books) {
    forall i :: 0 <= i < |b.results| ==> b.results[i].key in b.dispatch && b.results[i].thread != ""
  }

  /** The stored chain is that of the results, its last row possibly missing. */
  predicate ChainFits(x: Crypto, b: Books) {
    |b.chain| <= |b.results| <= |b.chain| + 1 && b.chain == ChainOf(x, b.results)[..|b.chain|]
  }

  /** Results that count: one per key, one per thread. */
  predicate ValidOnce(results: seq<Row>) {
    forall i, j :: 0 <= i < j < |results| && !results[i].infra && !results[j].infra ==>
      results[i].key != results[j].key && results[i].thread != results[j].thread
  }

  predicate HasPair(results: seq<Row>, key: string, thread: string) {
    exists i :: 0 <= i < |results| && results[i].key == key && results[i].thread == thread
  }

  predicate ArchiveMatches(b: Books) {
    && Distinct(b.archive)
    && forall i :: 0 <= i < |b.archive| ==> HasPair(b.results, b.archive[i].key, b.archive[i].thread)
  }

  predicate ChainReadable(x: Crypto, b: Books) {
    Distinct(b.dispatch) && ChainFits(x, b) && RowsKnown(b)
  }

  predicate VerifyOk(x: Crypto, b: Books) {
    ChainReadable(x, b) && ValidOnce(b.results) && ArchiveMatches(b)
  }

  /** The books after verify_results, which appends a missing last chain row. */
  function Verified(x: Crypto, b: Books): Books {
    if ChainReadable(x, b) then b.(chain := ChainOf(x, b.results)) else b
  }

  // ---- the operations ----

  predicate Done(results: seq<Row>, key: string) {
    exists i :: 0 <= i < |results| && results[i].key == key && !results[i].infra
  }

  predicate Active(c: Claims, key: string) {
    key in c.states && c.states[key].kind in {Claimed, Assigned}
  }

  /** pending_runs, before its limit: dispatch order, neither done nor active. */
  function Pending(dispatch: seq<string>, results: seq<Row>, c: Claims): seq<string> {
    if dispatch == [] then []
    else
      var n := |dispatch| - 1;
      Pending(dispatch[..n], results, c) + (if Done(results, dispatch[n]) || Active(c, dispatch[n]) then [] else [dispatch[n]])
  }

  function ClaimEvents(keys: seq<string>, at: string): seq<Event> {
    if keys == [] then [] else ClaimEvents(keys[..|keys| - 1], at) + [Event(keys[|keys| - 1], Claimed, None, at)]
  }

  datatype Action =
    | Verify
    | Claim(limit: nat, at: string)
    | Assign(key: string, thread: string, at: string)
    | Recover(key: string, at: string)
    | Record(row: Row, at: string, appends: nat)   // how many of its three appends reach the disk
    | Archive(key: string, thread: string)

  predicate KindIs(b: Books, key: string, kind: Kind) {
    var c := Replay(b.dispatch, b.claims);
    c.Some? && key in c.value.states && c.value.states[key].kind == kind
  }

  predicate AssignedTo(b: Books, key: string, thread: string) {
    var c := Replay(b.dispatch, b.claims);
    c.Some? && key in c.value.states && c.value.states[key].kind == Assigned && c.value.states[key].thread == Some(thread)
  }

  predicate ThreadRecorded(results: seq<Row>, thread: string) {
    exists i :: 0 <= i < |results| && results[i].thread == thread
  }

  predicate Accepts(x: Crypto, b: Books, a: Action) {
    match a
    case Verify => VerifyOk(x, b)
    case Claim(limit, _) => limit >= 1 && VerifyOk(x, b) && Replay(b.dispatch, b.claims).Some?
    case Assign(key, thread, _) => KindIs(b, key, Claimed) && !ThreadRecorded(b.results, thread)
    case Recover(key, _) => KindIs(b, key, Claimed)
    case Record(row, _, _) => row.key in b.dispatch && !Done(b.results, row.key) && VerifyOk(x, b) && AssignedTo(b, row.key, row.thread)
    case Archive(key, thread) =>
      VerifyOk(x, b) && HasPair(b.results, key, thread) && forall i :: 0 <= i < |b.archive| ==> b.archive[i].thread != thread
  }

  function Recorded(x: Crypto, b: Books, row: Row, at: string, appends: nat): Books {
    var b1 := if appends >= 1 then b.(results := b.results + [row]) else b;
    var b2 := if appends >= 2 then b1.(chain := b1.chain + [Link(x, row, Tip(b1.chain))]) else b1;
    if appends >= 3 then b2.(claims := b2.claims + [Event(row.key, Closed, Some(row.thread), at)]) else b2
  }

  /** The books after an operation, refused ones included. */
  function Perform(x: Crypto, b: Books, a: Action): Books {
    var v := if a.Verify? || a.Claim? || a.Record? || a.Archive? then Verified(x, b) else b;
    if !Accepts(x, b, a) then (if a.Record? && (a.row.key !in b.dispatch || Done(b.results, a.row.key)) then b
                               else if a.Claim? && a.limit < 1 then b else v)
    else match a
      case Verify => v
      case Claim(limit, at) =>
        v.(claims := v.claims + ClaimEvents(Take(Pending(v.dispatch, v.results, Replay(v.dispatch, v.claims).value), limit), at))
      case Assign(key, thread, at) => v.(claims := v.claims + [Event(key, Assigned, Some(thread), at)])
      case Recover(key, at) => v.(claims := v.claims + [Event(key, Recovered, None, at)])
      case Record(row, at, appends) => Recorded(x, v, row, at, appends)
      case Archive(key, thread) => v.(archive := v.archive + [Archived(key, thread)])
  }

  // ---- what every operation keeps ----

  /** Each result row answers an assignment of its thread to its key. */
  ghost predicate Answered(b: Books) {
    forall i :: 0 <= i < |b.results| ==> WasAssigned(b.claims, b.results[i].key, b.results[i].thread)
  }

  ghost predicate WasAssigned(claims: seq<Event>, key: string, thread: string) {
    exists j: nat :: AssignedAt(claims, j, key, thread)
  }

  lemma WasAssignedGrows(claims: seq<Event>, claims': seq<Event>, key: string, thread: string)
    requires claims <= claims' && WasAssigned(claims, key, thread)
    ensures WasAssigned(claims', key, thread)
  {
    var j: nat :| AssignedAt(claims, j, key, thread);
    assert AssignedAt(claims', j, key, thread);
  }

  ghost predicate Sound(x: Crypto, b: Books) {
    && Replay(b.dispatch, b.claims).Some?
    && VerifyOk(x, b)
    && Answered(b)
  }

  /** From any state the operations reach, crashes between appends included,
      verify_results succeeds and leaves the full chain of the results. */
  lemma VerifyRestoresChain(x: Crypto, b: Books)
    requires Sound(x, b)
    ensures Accepts(x, b, Verify)
    ensures Perform(x, b, Verify) == b.(chain := ChainOf(x, b.results))
    ensures Sound(x, Perform(x, b, Verify))
    ensures b.chain <= Perform(x, b, Verify).chain
  {
    var full := ChainOf(x, b.results);
    assert full[..|b.chain|] == b.chain && full[..|full|] == full;
    hide ChainOf, Replay, RowsKnown, ValidOnce, ArchiveMatches, Distinct, HasPair;
    AnsweredGrows(b, Verified(x, b));
    VerifiedOk(x, b);
  }

  lemma VerifiedOk(x: Crypto, b: Books)
    requires VerifyOk(x, b)
    ensures VerifyOk(x, Verified(x, b)) && Verified(x, b).chain == ChainOf(x, b.results)
  {
    var full := ChainOf(x, b.results);
    assert full[..|full|] == full;
  }

  lemma AnsweredGrows(b: Books, b': Books)
    requires Answered(b) && b.claims <= b'.claims && b'.results == b.results
    ensures Answered(b')
  {
    forall i | 0 <= i < |b'.results|
      ensures WasAssigned(b'.claims, b'.results[i].key, b'.results[i].thread)
    {
      WasAssignedGrows(b.claims, b'.claims, b.results[i].key, b.results[i].thread);
    }
  }

  lemma {:induction false} PendingIs(dispatch: seq<string>, results: seq<Row>, c: Claims)
    requires Distinct(dispatch)
    ensures Distinct(Pending(dispatch, results, c))
    ensures forall k :: k in Pending(dispatch, results, c) <==> k in dispatch && !Done(results, k) && !Active(c, k)
  {
    if dispatch == [] {
    } else {
      var n := |dispatch| - 1;
      PendingIs(dispatch[..n], results, c);
      assert dispatch == dispatch[..n] + [dispatch[n]];
    }
  }

  /** The rows to hand out are those at some increasing positions of the dispatch
      list, none done or held; a row that could be handed out is left out only for
      `limit` rows before it. */
  ghost predicate HandsOut(dispatch: seq<string>, results: seq<Row>, c: Claims, limit: nat, rows: seq<string>, picks: seq<nat>) {
    && |rows| == |picks| <= limit
    && (forall i :: 0 <= i < |picks| ==> picks[i] < |dispatch| && rows[i] == dispatch[picks[i]] && Available(results, c, rows[i]))
    && (forall i, j :: 0 <= i < j < |picks| ==> picks[i] < picks[j])
    && (forall n :: 0 <= n < |dispatch| && n !in picks && Available(results, c, dispatch[n]) ==>
          |rows| == limit && forall i :: 0 <= i < |picks| ==> picks[i] < n)
  }

  /** No result but infrastructure failures, and no claim or assignment in force. */
  ghost predicate Available(results: seq<Row>, c: Claims, key: string) {
    && (forall i :: 0 <= i < |results| && results[i].key == key ==> results[i].infra)
    && (key in c.states ==> c.states[key].kind != Claimed && c.states[key].kind != Assigned)
  }

  lemma AvailableIff(results: seq<Row>, c: Claims, key: string)
    ensures Available(results, c, key) <==> !Done(results, key) && !Active(c, key)
  {
  }

  /** All positions of available rows, in order. */
  ghost predicate Positions(dispatch: seq<string>, results: seq<Row>, c: Claims, rows: seq<string>, picks: seq<nat>) {
    && |rows| == |picks|
    && (forall i :: 0 <= i < |picks| ==> picks[i] < |dispatch| && rows[i] == dispatch[picks[i]] && Available(results, c, rows[i]))
    && (forall i, j :: 0 <= i < j < |picks| ==> picks[i] < picks[j])
    && (forall n :: 0 <= n < |dispatch| && Available(results, c, dispatch[n]) ==> n in picks)
  }

  lemma {:induction false} PendingPositions(dispatch: seq<string>, results: seq<Row>, c: Claims) returns (picks: seq<nat>)
    ensures Positions(dispatch, results, c, Pending(dispatch, results, c), picks)
  {
    hide Available, Done, Active;
    if dispatch == [] {
      picks := [];
    } else {
      var n := |dispatch| - 1;
      var front := PendingPositions(dispatch[..n], results, c);
      AvailableIff(results, c, dispatch[n]);
      OnePositionMore(dispatch, results, c, Pending(dispatch[..n], results, c), front);
      picks := if Available(results, c, dispatch[n]) then front + [n] else front;
    }
  }

  lemma OnePositionMore(dispatch: seq<string>, results: seq<Row>, c: Claims, rows: seq<string>, front: seq<nat>)
    requires dispatch != [] && Positions(dispatch[..|dispatch| - 1], results, c, rows, front)
    ensures var n := |dispatch| - 1;
      if Available(results, c, dispatch[n]) then Positions(dispatch, results, c, rows + [dispatch[n]], front + [n])
      else Positions(dispatch, results, c, rows, front)
  {
    hide Available;
    var n := |dispatch| - 1;
    assert forall m :: 0 <= m < n ==> dispatch[..n][m] == dispatch[m];
    assert forall m :: m in front ==> m in front + [n];
    assert (front + [n])[|front|] == n;
  }

  /** pending_runs: in dispatch order, and the first `limit` of them. */
  lemma PendingInOrder(dispatch: seq<string>, results: seq<Row>, c: Claims, limit: nat) returns (picks: seq<nat>)
    ensures HandsOut(dispatch, results, c, limit, Take(Pending(dispatch, results, c), limit), picks)
  {
    hide Available;
    var all := PendingPositions(dispatch, results, c);
    picks := Take(all, limit);
    assert forall i :: 0 <= i < |picks| ==> picks[i] == all[i] && all[i] in picks;
    forall n | 0 <= n < |dispatch| && n !in picks && Available(results, c, dispatch[n])
      ensures |picks| == limit && forall i :: 0 <= i < |picks| ==> picks[i] < n
    {
      var j :| 0 <= j < |all| && all[j] == n;
      assert j >= |picks|;
    }
  }

  lemma OneMoreClaim(dispatch: seq<string>, claims: seq<Event>, key: string, at: string)
    requires Replay(dispatch, claims).Some? && key in dispatch && !Active(Replay(dispatch, claims).value, key)
    ensures var c := Replay(dispatch, claims).value;
      Replay(dispatch, claims + [Event(key, Claimed, None, at)]) == Some(Claims(c.states[key := Event(key, Claimed, None, at)], c.used))
  {
    ReplaySnoc(dispatch, claims, Event(key, Claimed, None, at));
    if key in Replay(dispatch, claims).value.states {
      KindsKnown(dispatch, claims, key);
    }
  }

  /** Claiming distinct keys that are not active keeps the log replayable. */
  lemma {:induction false} ClaimsReplay(dispatch: seq<string>, claims: seq<Event>, keys: seq<string>, at: string)
    requires Replay(dispatch, claims).Some? && Distinct(keys)
    requires forall k :: k in keys ==> k in dispatch && !Active(Replay(dispatch, claims).value, k)
    ensures Replay(dispatch, claims + ClaimEvents(keys, at)).Some?
    ensures forall k :: k !in keys ==> SameState(Replay(dispatch, claims).value, Replay(dispatch, claims + ClaimEvents(keys, at)).value, k)
    ensures Replay(dispatch, claims + ClaimEvents(keys, at)).value.used == Replay(dispatch, claims).value.used
  {
    hide Replay;
    if keys == [] {
      assert claims + ClaimEvents(keys, at) == claims;
    } else {
      var n := |keys| - 1;
      assert keys == keys[..n] + [keys[n]];
      ClaimsReplay(dispatch, claims, keys[..n], at);
      var before := claims + ClaimEvents(keys[..n], at);
      assert claims + ClaimEvents(keys, at) == before + [Event(keys[n], Claimed, None, at)];
      assert keys[n] in keys && keys[n] !in keys[..n];
      assert SameState(Replay(dispatch, claims).value, Replay(dispatch, before).value, keys[n]);
      OneMoreClaim(dispatch, before, keys[n], at);
    }
  }

  predicate SameState(c: Claims, d: Claims, key: string) {
    (key in c.states <==> key in d.states) && (key in c.states ==> c.states[key] == d.states[key])
  }

  lemma {:induction false} KindsKnown(dispatch: seq<string>, claims: seq<Event>, key: string)
    requires Replay(dispatch, claims).Some? && key in Replay(dispatch, claims).value.states
    ensures Replay(dispatch, claims).value.states[key].kind != OtherKind
  {
    if claims != [] && claims[|claims| - 1].key != key {
      KindsKnown(dispatch, claims[..|claims| - 1], key);
    }
  }

  lemma TakeSome(s: seq<string>, limit: nat)
    requires Distinct(s)
    ensures Distinct(Take(s, limit)) && forall k :: k in Take(s, limit) ==> k in s
  {
  }

  /** An assignment of a thread the log has not seen is the one fresh-thread condition. */
  predicate Fresh(b: Books, a: Action) {
    a.Assign? ==> a.thread != "" && forall j :: 0 <= j < |b.claims| && b.claims[j].kind == Assigned ==> b.claims[j].thread != Some(a.thread)
  }

  /** assign_claim checks a thread against the results, not against the log: what it
      appends keeps the log replayable exactly when the thread is non-empty and was
      never assigned before. */
  lemma AssignReplaysIff(x: Crypto, b: Books, key: string, thread: string, at: string)
    requires Replay(b.dispatch, b.claims).Some? && Accepts(x, b, Assign(key, thread, at))
    ensures Replay(b.dispatch, Perform(x, b, Assign(key, thread, at)).claims).Some? <==> Fresh(b, Assign(key, thread, at))
  {
    var e := Event(key, Assigned, Some(thread), at);
    ReplaySnoc(b.dispatch, b.claims, e);
    UsedAreAssigned(b.dispatch, b.claims);
    var i := StateIsLast(b.dispatch, b.claims, key);
    KeysKnown(b.dispatch, b.claims, i);
    assert thread in Replay(b.dispatch, b.claims).value.used <==>
      exists j :: 0 <= j < |b.claims| && b.claims[j].kind == Assigned && b.claims[j].thread == Some(thread);
  }

  lemma {:induction false} KeysKnown(dispatch: seq<string>, claims: seq<Event>, i: nat)
    requires Replay(dispatch, claims).Some? && i < |claims|
    ensures claims[i].key in dispatch
  {
    if i < |claims| - 1 {
      KeysKnown(dispatch, claims[..|claims| - 1], i);
    }
  }

  lemma ClaimKeepsSound(x: Crypto, b: Books, limit: nat, at: string)
    requires Sound(x, b)
    ensures Sound(x, Perform(x, b, Claim(limit, at)))
  {
    VerifyRestoresChain(x, b);
    var v := Verified(x, b);
    var c := Replay(v.dispatch, v.claims).value;
    var keys := Take(Pending(v.dispatch, v.results, c), limit);
    PendingIs(v.dispatch, v.results, c);
    TakeSome(Pending(v.dispatch, v.results, c), limit);
    ClaimsReplay(v.dispatch, v.claims, keys, at);
    hide ChainOf, Replay, RowsKnown, ValidOnce, ArchiveMatches, HasPair, Pending, Take, ClaimEvents;
    AnsweredGrows(v, v.(claims := v.claims + ClaimEvents(keys, at)));
  }

  lemma AssignKeepsSound(x: Crypto, b: Books, key: string, thread: string, at: string)
    requires Sound(x, b) && Fresh(b, Assign(key, thread, at))
    ensures Sound(x, Perform(x, b, Assign(key, thread, at)))
  {
    if Accepts(x, b, Assign(key, thread, at)) {
      AssignReplaysIff(x, b, key, thread, at);
      var b' := Perform(x, b, Assign(key, thread, at));
      hide ChainOf, Replay, RowsKnown, ValidOnce, ArchiveMatches, HasPair;
      AnsweredGrows(b, b');
      SameResults(x, b, b');
    }
  }

  lemma SameResults(x: Crypto, b: Books, b': Books)
    requires VerifyOk(x, b) && b' == b.(claims := b'.claims)
    ensures VerifyOk(x, b')
  {
  }

  lemma RecoverKeepsSound(x: Crypto, b: Books, key: string, at: string)
    requires Sound(x, b)
    ensures Sound(x, Perform(x, b, Recover(key, at)))
  {
    if Accepts(x, b, Recover(key, at)) {
      var b' := Perform(x, b, Recover(key, at));
      ReplaySnoc(b.dispatch, b.claims, Event(key, Recovered, None, at));
      var i := StateIsLast(b.dispatch, b.claims, key);
      KeysKnown(b.dispatch, b.claims, i);
      hide ChainOf, RowsKnown, ValidOnce, ArchiveMatches, HasPair;
      AnsweredGrows(b, b');
      SameResults(x, b, b');
    }
  }

  /** A row that counts has a key and a thread no other row that counts has. */
  lemma NewRowOnce(b: Books, row: Row)
    requires Replay(b.dispatch, b.claims).Some? && Answered(b) && ValidOnce(b.results)
    requires !Done(b.results, row.key) && WasAssigned(b.claims, row.key, row.thread)
    ensures ValidOnce(b.results + [row])
  {
    hide Replay;
    forall i | 0 <= i < |b.results| && !b.results[i].infra
      ensures b.results[i].key != row.key && b.results[i].thread != row.thread
    {
      assert b.results[i].key != row.key;
      if b.results[i].thread == row.thread {
        assert WasAssigned(b.claims, b.results[i].key, row.thread);
        var j: nat :| AssignedAt(b.claims, j, b.results[i].key, row.thread);
        var k: nat :| AssignedAt(b.claims, k, row.key, row.thread);
        ThreadAssignedOnce(b.dispatch, b.claims, j, k, row.thread);
        assert false;
      }
    }
  }

  lemma AssignedStateWas(b: Books, key: string, thread: string)
    requires AssignedTo(b, key, thread)
    ensures WasAssigned(b.claims, key, thread) && thread != "" && key in b.dispatch
  {
    var i := StateIsLast(b.dispatch, b.claims, key);
    KeysKnown(b.dispatch, b.claims, i);
    UsedAreAssigned(b.dispatch, b.claims);
    assert AssignedAt(b.claims, i, key, thread);
  }

  lemma PairsGrow(b: Books, b': Books)
    requires ArchiveMatches(b) && b.results <= b'.results && b'.archive == b.archive
    ensures ArchiveMatches(b')
  {
    forall i | 0 <= i < |b'.archive|
      ensures HasPair(b'.results, b'.archive[i].key, b'.archive[i].thread)
    {
      assert HasPair(b.results, b.archive[i].key, b.archive[i].thread);
      var j :| 0 <= j < |b.results| && b.results[j].key == b.archive[i].key && b.results[j].thread == b.archive[i].thread;
      assert b'.results[j] == b.results[j];
    }
  }

  /** A crash after any of the three appends leaves books that verify. */
  lemma RecordKeepsSound(x: Crypto, b: Books, row: Row, at: string, appends: nat)
    requires Sound(x, b)
    ensures Sound(x, Perform(x, b, Record(row, at, appends)))
  {
    VerifyRestoresChain(x, b);
    hide ChainOf, Replay, VerifyOk, ChainReadable, Answered, Recorded;
    if Accepts(x, b, Record(row, at, appends)) {
      RecordedSound(x, Verified(x, b), row, at, appends);
    }
  }

  lemma RecordedSound(x: Crypto, b: Books, row: Row, at: string, appends: nat)
    requires Sound(x, b) && b.chain == ChainOf(x, b.results) && AssignedTo(b, row.key, row.thread) && !Done(b.results, row.key)
    ensures Sound(x, Recorded(x, b, row, at, appends))
  {
    if appends >= 1 {
      var b' := Recorded(x, b, row, at, appends);
      AssignedStateWas(b, row.key, row.thread);
      NewRowOnce(b, row);
      PairsGrow(b, b');
      RecordedChain(x, b, row, at, appends);
      RecordedAnswered(b, b', row);
      RecordedKnown(b, b', row);
      RecordedReplays(x, b, row, at, appends);
      hide ChainOf, RowsKnown, ArchiveMatches, HasPair, ValidOnce, Answered, Replay, ChainFits;
    }
  }

  lemma RecordedReplays(x: Crypto, b: Books, row: Row, at: string, appends: nat)
    requires AssignedTo(b, row.key, row.thread) && row.key in b.dispatch
    ensures Replay(b.dispatch, Recorded(x, b, row, at, appends).claims).Some?
  {
    ReplaySnoc(b.dispatch, b.claims, Event(row.key, Closed, Some(row.thread), at));
  }

  lemma RecordedKnown(b: Books, b': Books, row: Row)
    requires RowsKnown(b) && b'.results == b.results + [row] && b'.dispatch == b.dispatch && row.key in b.dispatch && row.thread != ""
    ensures RowsKnown(b')
  {
  }

  lemma RecordedAnswered(b: Books, b': Books, row: Row)
    requires Answered(b) && WasAssigned(b.claims, row.key, row.thread) && b.claims <= b'.claims && b'.results == b.results + [row]
    ensures Answered(b')
  {
    forall i | 0 <= i < |b'.results|
      ensures WasAssigned(b'.claims, b'.results[i].key, b'.results[i].thread)
    {
      assert i < |b.results| ==> WasAssigned(b.claims, b.results[i].key, b.results[i].thread);
      WasAssignedGrows(b.claims, b'.claims, b'.results[i].key, b'.results[i].thread);
    }
  }

  lemma RecordedChain(x: Crypto, b: Books, row: Row, at: string, appends: nat)
    requires b.chain == ChainOf(x, b.results) && appends >= 1
    ensures ChainFits(x, Recorded(x, b, row, at, appends))
    ensures appends >= 2 ==> Recorded(x, b, row, at, appends).chain == ChainOf(x, Recorded(x, b, row, at, appends).results)
  {
    ChainSnoc(x, b.results, row);
    var b' := Recorded(x, b, row, at, appends);
    var full := ChainOf(x, b'.results);
    assert full[..|full|] == full && full[..|b.chain|] == b.chain;
  }

  lemma ArchiveKeepsSound(x: Crypto, b: Books, key: string, thread: string)
    requires Sound(x, b)
    ensures Sound(x, Perform(x, b, Archive(key, thread)))
  {
    VerifyRestoresChain(x, b);
    var v := Verified(x, b);
    hide ChainOf, RowsKnown, ValidOnce, HasPair;
    AnsweredGrows(v, v.(archive := v.archive + [Archived(key, thread)]));
  }

  lemma StepKeepsSound(x: Crypto, b: Books, a: Action)
    requires Sound(x, b) && Fresh(b, a)
    ensures Sound(x, Perform(x, b, a))
  {
    match a
    case Verify => VerifyRestoresChain(x, b);
    case Claim(limit, at) => ClaimKeepsSound(x, b, limit, at);
    case Assign(key, thread, at) => AssignKeepsSound(x, b, key, thread, at);
    case Recover(key, at) => RecoverKeepsSound(x, b, key, at);
    case Record(row, at, appends) => RecordKeepsSound(x, b, row, at, appends);
    case Archive(key, thread) => ArchiveKeepsSound(x, b, key, thread);
  }

  // ---- runs ----

  function Opening(dispatch: seq<string>): Books {
    Books(dispatch, [], [], [], [])
  }

  function PerformAll(x: Crypto, b: Books, actions: seq<Action>): Books {
    if actions == [] then b else Perform(x, PerformAll(x, b, actions[..|actions| - 1]), actions[|actions| - 1])
  }

  predicate AllFresh(x: Crypto, b: Books, actions: seq<Action>) {
    forall i :: 0 <= i < |actions| ==> Fresh(PerformAll(x, b, actions[..i]), actions[i])
  }

  /** Under any sequence of claims, fresh assignments, recoveries, records cut short
      anywhere, verifications and archivings, the log replays, no key and no thread
      has two results that count, and the chain lacks at most its last row. */
  lemma {:induction false} RunsStaySound(x: Crypto, dispatch: seq<string>, actions: seq<Action>)
    requires Distinct(dispatch) && AllFresh(x, Opening(dispatch), actions)
    ensures Sound(x, PerformAll(x, Opening(dispatch), actions))
  {
    if actions == [] {
    } else {
      var n := |actions| - 1;
      assert forall i :: 0 <= i < n ==> actions[..n][..i] == actions[..i];
      RunsStaySound(x, dispatch, actions[..n]);
      StepKeepsSound(x, PerformAll(x, Opening(dispatch), actions[..n]), actions[n]);
    }
  }

  /** A key with a result that counts is never handed out again. */
  lemma DoneIsNotReclaimed(x: Crypto, b: Books, limit: nat, at: string, key: string)
    requires Sound(x, b) && Done(b.results, key)
    ensures var after := Perform(x, b, Claim(limit, at));
      b.claims <= after.claims && forall i :: |b.claims| <= i < |after.claims| ==> after.claims[i].key != key
  {
    var v := Verified(x, b);
    var c := Replay(v.dispatch, v.claims).value;
    PendingIs(v.dispatch, v.results, c);
    TakeSome(Pending(v.dispatch, v.results, c), limit);
    EventsAt(Take(Pending(v.dispatch, v.results, c), limit), at);
  }

  lemma {:induction false} EventsAt(keys: seq<string>, at: string)
    ensures |ClaimEvents(keys, at)| == |keys|
    ensures forall i :: 0 <= i < |keys| ==> ClaimEvents(keys, at)[i] == Event(keys[i], Claimed, None, at)
  {
    if keys == [] {
    } else {
      EventsAt(keys[..|keys| - 1], at);
    }
  }

  /** Without a fresh thread the log is lost: from any sound books with two keys
      claimed, assigning one thread to both is accepted twice and then nothing
      replays. */
  lemma SharedThreadCorrupts(x: Crypto, b: Books, j: string, k: string, thread: string, at: string)
    requires Sound(x, b) && j != k && KindIs(b, j, Claimed) && KindIs(b, k, Claimed)
    requires thread != "" && !ThreadRecorded(b.results, thread) && Fresh(b, Assign(j, thread, at))
    ensures var b1 := Perform(x, b, Assign(j, thread, at));
      && Sound(x, b1) && Accepts(x, b1, Assign(k, thread, at))
      && Replay(b1.dispatch, Perform(x, b1, Assign(k, thread, at)).claims).None?
  {
    var e := Event(j, Assigned, Some(thread), at);
    var b1 := Perform(x, b, Assign(j, thread, at));
    AssignKeepsSound(x, b, j, thread, at);
    ReplaySnoc(b.dispatch, b.claims, e);
    hide Sound;
    assert b1.claims[|b.claims|] == e;
    AssignReplaysIff(x, b1, k, thread, at);
  }

  /** Two sets of results that verify against one complete chain are the same, or a
      breach of the digest. */
  lemma VerifiedChainPinsResults(x: Crypto, b: Books, b': Books) returns (breach: Breach)
    requires FixedLength(x) && CanonicalTellsApart(x)
    requires VerifyOk(x, b) && VerifyOk(x, b') && b.chain == b'.chain && |b.chain| == |b.results| == |b'.results|
    ensures b.results == b'.results || Genuine(x, breach)
  {
    var p, q := ChainOf(x, b.results), ChainOf(x, b'.results);
    assert p[..|p|] == p && q[..|q|] == q;
    breach := TipPinsLedger(x, b.results, b'.results);
  }
}
