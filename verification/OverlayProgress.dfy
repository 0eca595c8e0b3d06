/** What the sections of the live-overlay protocol do when nothing comes in between
    (src/cmd/ragrep/workspace.go:182-202, 452-515; code_service.go:498-538, 664-751). */
module OverlayProgress {
  import opened Options
  import opened Codestore
  import opened Overlay

  /** A confirmation of a live row, undisturbed: the row is promoted and uncovered, the
      confirmation ends, and the token is free again. */
  lemma ConfirmationPromotes(s: State, id: nat, symbols: nat)
    requires s.holder == Free && id in s.running && s.running[id].phase == Unread && Matches(s.store, s.running[id].conf, false)
    ensures
      var c := s.running[id].conf;
      var steps := [Observe(id), Lock(id), Recheck(id), Promote(id, symbols), Finish(id)];
      && Overlay.IsRun(s, steps)
      && After(s, steps) == s.(
           store := Overlaid(s.store.live - {c.path},
                             if symbols > 0 || (c.path in s.store.durable && s.store.durable[c.path] == c.hash) then s.store.durable[c.path := c.hash]
                             else s.store.durable - {c.path}),
           running := s.running - {id})
  {
    var s1, s2, s3, s4 := Read(s, id), Read(s, id).(holder := Locked(id)), Read(s, id).(holder := Checked(id)), Written(s, id, symbols);
    ReadSteps(s, id);
    WriteSteps(s, id, symbols);
    hide Next, Enabled;
    assert s4.running - {id} == s.running - {id};
    OneMore(s4, Finish(id), []);
    OneMore(s3, Promote(id, symbols), [Finish(id)]);
    OneMore(s2, Recheck(id), [Promote(id, symbols), Finish(id)]);
    OneMore(s1, Lock(id), [Recheck(id), Promote(id, symbols), Finish(id)]);
    OneMore(s, Observe(id), [Lock(id), Recheck(id), Promote(id, symbols), Finish(id)]);
  }

  /** The confirmation has read its live row. */
  function Read(s: State, id: nat): State
    requires id in s.running
  {
    s.(running := s.running[id := Job(s.running[id].conf, SawLive)])
  }

  function Written(s: State, id: nat, symbols: nat): State
    requires id in s.running
  {
    Read(s, id).(store := UpsertPath(s.store, s.running[id].conf, symbols), holder := Promoted(id))
  }

  lemma ReadSteps(s: State, id: nat)
    requires s.holder == Free && id in s.running && s.running[id].phase == Unread && Matches(s.store, s.running[id].conf, false)
    ensures Enabled(s, Observe(id)) && Next(s, Observe(id)) == Read(s, id)
    ensures Enabled(Read(s, id), Lock(id)) && Next(Read(s, id), Lock(id)) == Read(s, id).(holder := Locked(id))
    ensures var locked := Read(s, id).(holder := Locked(id));
      Enabled(locked, Recheck(id)) && Next(locked, Recheck(id)) == locked.(holder := Checked(id))
  {
  }

  lemma WriteSteps(s: State, id: nat, symbols: nat)
    requires s.holder == Free && id in s.running && Matches(s.store, s.running[id].conf, false)
    ensures var checked := Read(s, id).(holder := Checked(id));
      Enabled(checked, Promote(id, symbols)) && Next(checked, Promote(id, symbols)) == Written(s, id, symbols)
    ensures Enabled(Written(s, id, symbols), Finish(id))
    ensures var c := s.running[id].conf;
      Next(Written(s, id, symbols), Finish(id)) == s.(
        store := Overlaid(s.store.live - {c.path},
                          if symbols > 0 || (c.path in s.store.durable && s.store.durable[c.path] == c.hash) then s.store.durable[c.path := c.hash]
                          else s.store.durable - {c.path}),
        running := Written(s, id, symbols).running - {id})
  {
  }

  /** A confirmation of a tombstone, undisturbed: the tombstone goes with the durable
      rows. */
  lemma ConfirmationBuries(s: State, id: nat)
    requires s.holder == Free && id in s.running && s.running[id].phase == Unread && Matches(s.store, s.running[id].conf, true)
    ensures
      var c := s.running[id].conf;
      var steps := [Observe(id), Lock(id), Finish(id)];
      && Overlay.IsRun(s, steps)
      && After(s, steps) == s.(store := Overlaid(s.store.live - {c.path}, s.store.durable - {c.path}), running := s.running - {id})
  {
    var s1 := Next(s, Observe(id));
    var s2 := Next(s1, Lock(id));
    OneMore(s2, Finish(id), []);
    OneMore(s1, Lock(id), [Finish(id)]);
    OneMore(s, Observe(id), [Lock(id), Finish(id)]);
    assert s2.running - {id} == s.running - {id};
  }

  /** A confirmation whose row is gone or changed ends at its first read, or at the
      second one under the token, and leaves the store alone. */
  lemma StaleConfirmationEnds(s: State, id: nat)
    requires id in s.running
    ensures
      var c := s.running[id].conf;
      && (s.running[id].phase == Unread && !Matches(s.store, c, true) && !Matches(s.store, c, false) ==>
            Enabled(s, Observe(id)) && Next(s, Observe(id)) == s.(running := s.running - {id}, holder := Next(s, Observe(id)).holder)
            && (!Holds(s.holder, id) ==> Next(s, Observe(id)).holder == s.holder))
      && (s.holder == Locked(id) && s.running[id].phase == SawLive && !Matches(s.store, c, false) ==>
            Enabled(s, Recheck(id)) && Next(s, Recheck(id)) == s.(running := s.running - {id}, holder := Free))
  {
  }

  /** A confirmation that fails, wherever it stands, gives the token back if it had it,
      and waits again under its path and hash, unless the workspace is closed. */
  lemma FailureRequeues(s: State, id: nat)
    requires id in s.running
    ensures
      var steps := [Fail(id), Requeue(id)];
      && Overlay.IsRun(s, steps)
      && After(s, steps) == s.(
           running := s.running - {id},
           holder := if (s.holder.Locked? || s.holder.Checked? || s.holder.Promoted?) && s.holder.id == id then Free else s.holder,
           pending := if s.closed then s.pending else s.pending + {s.running[id].conf})
  {
    var s1 := Next(s, Fail(id));
    OneMore(s1, Requeue(id), []);
    OneMore(s, Fail(id), [Requeue(id)]);
    assert s1.running - {id} == s.running - {id};
  }

  /** Index's turn for one file: skipped under a tombstone of its hash, else promoted and
      uncovered; it has the token from its start to its end, and prunes under it. */
  lemma IndexTurn(s: State, c: Conf, symbols: nat)
    requires s.holder == Free
    ensures
      var steps := if Matches(s.store, c, true) then [StartIndex, IndexUpsert(c, symbols), EndIndex]
                   else [StartIndex, IndexUpsert(c, symbols), IndexUncover, EndIndex];
      && Overlay.IsRun(s, steps)
      && After(s, steps) == if Matches(s.store, c, true) then s else s.(store := Uncover(UpsertPath(s.store, c, symbols), c))
  {
    var s1 := Next(s, StartIndex);
    var s2 := Next(s1, IndexUpsert(c, symbols));
    if Matches(s.store, c, true) {
      OneMore(s2, EndIndex, []);
      OneMore(s1, IndexUpsert(c, symbols), [EndIndex]);
      OneMore(s, StartIndex, [IndexUpsert(c, symbols), EndIndex]);
    } else {
      var s3 := Next(s2, IndexUncover);
      OneMore(s3, EndIndex, []);
      OneMore(s2, IndexUncover, [EndIndex]);
      OneMore(s1, IndexUpsert(c, symbols), [IndexUncover, EndIndex]);
      OneMore(s, StartIndex, [IndexUpsert(c, symbols), IndexUncover, EndIndex]);
    }
  }

  /** A snapshot holds the token and nothing else; pruning drops one path's durable rows;
      Close is for good, and afterwards nothing is scheduled. */
  lemma OtherSections(s: State, p: Path)
    ensures s.holder == Free ==> Next(s, ReadLock) == s.(holder := Reading) && Next(Next(s, ReadLock), ReadUnlock) == s
    ensures s.holder == Indexing ==> Next(s, IndexPrune(p)) == s.(store := Overlaid(s.store.live, s.store.durable - {p}))
    ensures Next(s, Close) == s.(closed := true)
    ensures s.closed ==> forall c :: StartJob(s, c) == s
    ensures !s.closed && s.connected ==> forall c :: StartJob(s, c) == s.(running := s.running[s.nextJob := Job(c, Unread)], nextJob := s.nextJob + 1)
    ensures !s.closed && !s.connected ==> forall c :: StartJob(s, c) == s.(pending := s.pending + {c})
  {
  }
}
