/** What an action gives back as the positions it left open: nothing in the contract it selected of a role it
    closes, everything elsewhere, and each position once. */
module CondorReturned {
  import opened Wrappers
  import opened PaperLedger
  import opened CondorRoll
  import opened CondorLadder
  import opened CloseExecutor
  import opened CondorActions

  /** The newest of the open positions of a role, the one listed first of several as new. */
  predicate Newest(positions: seq<Position>, role: LegRole, i: nat) {
    && i < |positions| && positions[i].role == role
    && (forall j | 0 <= j < |positions| && positions[j].role == role ::
          if j < i then positions[j].entryDate < positions[i].entryDate
          else positions[j].entryDate <= positions[i].entryDate)
  }

  lemma {:induction false} PositionForRoleIsNewest(positions: seq<Position>, role: LegRole)
    ensures PositionForRole(positions, role).None? <==> forall p :: p in positions ==> p.role != role
    ensures PositionForRole(positions, role).Some? ==>
      exists i: nat :: Newest(positions, role, i) && PositionForRole(positions, role) == Some(positions[i])
  {
    if positions != [] {
      var n := |positions| - 1;
      var init := positions[..n];
      PositionForRoleIsNewest(init, role);
      assert positions == init + [positions[n]];
      var best := PositionForRole(init, role);
      if best.Some? {
        var i: nat :| Newest(init, role, i) && best == Some(init[i]);
        if positions[n].role == role && positions[n].entryDate > best.value.entryDate {
          assert Newest(positions, role, n);
        } else {
          assert Newest(positions, role, i) && positions[i] == init[i];
        }
      } else {
        forall j | 0 <= j < n ensures positions[j].role != role { assert init[j] in init; }
        if positions[n].role == role { assert Newest(positions, role, n); }
      }
      if forall p :: p in positions ==> p.role != role {
        assert forall p :: p in init ==> p in positions;
      }
    }
  }

  /** The contract an action closes in a role: that of the newest open position, or any when none is open. */
  ghost predicate Picks(live: seq<Position>, role: LegRole, key: Key) {
    (forall p :: p in live ==> p.role != role) || (exists i: nat :: Newest(live, role, i) && live[i].key == key)
  }

  lemma NewestIsUnique(positions: seq<Position>, role: LegRole, i: nat, j: nat)
    requires Newest(positions, role, i) && Newest(positions, role, j)
    ensures i == j
  {
  }

  lemma ChosenIsPicked(live: seq<Position>, role: LegRole, key: Key)
    ensures Chosen(live, role, key) <==> Picks(live, role, key)
  {
    PositionForRoleIsNewest(live, role);
    var p := PositionForRole(live, role);
    if p.Some? {
      var i: nat :| Newest(live, role, i) && p == Some(live[i]);
      assert live[i] in live;
      if exists j: nat :: Newest(live, role, j) && live[j].key == key {
        var j: nat :| Newest(live, role, j) && live[j].key == key;
        NewestIsUnique(live, role, i, j);
      }
    }
  }

  /** The returned positions hold nothing in the contract picked of a closed role, and elsewhere what was held. */
  lemma ReturnedHold(positions: seq<Position>, roles: set<LegRole>, role: LegRole, key: Key)
    ensures HeldIn(Unmatched(positions, Live(positions), roles), role, key)
         == if role in roles && Picks(Live(positions), role, key) then 0 else HeldIn(positions, role, key)
  {
    var live := Live(positions);
    ChosenIsPicked(live, role, key);
    HeldKept(positions, p => !Matches(live, roles, p), !(role in roles && Chosen(live, role, key)), role, key);
  }

  /** Returned and selected positions together are the positions given. */
  lemma {:induction false} NothingLost(positions: seq<Position>, keep: Position -> bool)
    ensures multiset(Kept(positions, keep)) + multiset(Kept(positions, p => !keep(p))) == multiset(positions)
  {
    if positions != [] {
      var n := |positions| - 1;
      NothingLost(positions[..n], keep);
      assert positions == positions[..n] + [positions[n]];
      assert Kept(positions, p => !keep(p))
          == Kept(positions[..n], p => !keep(p)) + (if keep(positions[n]) then [] else [positions[n]]);
    }
  }

  /** For a closing action what is returned is what the ledger then holds, contract by contract. */
  lemma ReturnedIsLeft(feeds: Feeds, positions: seq<Position>, a: Approved, notes: Notes, role: LegRole, key: Key)
    requires Grouped(positions) && Closes(a.kind)
    ensures HeldIn(Unmatched(positions, Live(positions), Closed(a)), role, key)
         == Left(positions, Batch(feeds, positions, a, notes), role, key)
  {
    LiveIsAll(positions);
    ReturnedHold(positions, Closed(a), role, key);
    ChosenIsPicked(positions, role, key);
    ClosingLeaves(feeds, positions, Closed(a), notes, role, key);
  }

  /** The positions an action returns: every position but those in the picked contracts of the roles it closes, each as
      often as it was given, and what the ledger holds after a closing action. */
  lemma ActionReturns(feeds: Feeds, positions: seq<Position>, a: Approved, notes: Notes)
    ensures var kept := Unmatched(positions, Live(positions), Closed(a));
      var taken := Selected(positions, Live(positions), Closed(a));
      && multiset(kept) + multiset(taken) == multiset(positions)
      && (forall p :: p in taken ==> p.role in Closed(a) && Picks(Live(positions), p.role, p.key))
      && (forall p :: p in kept ==> !(p.role in Closed(a) && Picks(Live(positions), p.role, p.key)))
    ensures Grouped(positions) && Closes(a.kind) ==> forall role: LegRole, key: Key ::
      HeldIn(Unmatched(positions, Live(positions), Closed(a)), role, key)
      == Left(positions, Batch(feeds, positions, a, notes), role, key)
  {
    var live, roles := Live(positions), Closed(a);
    NothingLost(positions, p => Matches(live, roles, p));
    KeptMeet(positions, p => Matches(live, roles, p));
    KeptMeet(positions, p => !Matches(live, roles, p));
    forall p: Position ensures Matches(live, roles, p) <==> p.role in roles && Picks(live, p.role, p.key) {
      ChosenIsPicked(live, p.role, p.key);
    }
    SameTest(positions, p => !(p => Matches(live, roles, p))(p), p => !Matches(live, roles, p));
    if Grouped(positions) && Closes(a.kind) {
      forall role: LegRole, key: Key
        ensures HeldIn(Unmatched(positions, live, roles), role, key)
             == Left(positions, Batch(feeds, positions, a, notes), role, key)
      {
        ReturnedIsLeft(feeds, positions, a, notes, role, key);
      }
    }
  }

  lemma {:induction false} KeptMeet(positions: seq<Position>, keep: Position -> bool)
    ensures forall p :: p in Kept(positions, keep) ==> keep(p)
  {
    if positions != [] { KeptMeet(positions[..|positions| - 1], keep); }
  }

  lemma {:induction false} SameTest(positions: seq<Position>, a: Position -> bool, b: Position -> bool)
    requires forall p :: a(p) == b(p)
    ensures Kept(positions, a) == Kept(positions, b)
  {
    if positions != [] { SameTest(positions[..|positions| - 1], a, b); }
  }

  // --- Which roles an action closes ---------------------------------------------------------

  /** Auto-executed closes of a condor without overlapping roles: a full close leaves no leg, a spread close none of its
      side and the other side as it was. */
  lemma AutoCloseLeaves(feeds: Feeds, positions: seq<Position>, a: Approved, notes: Notes, side: Side, key: Key)
    requires Grouped(positions) && !RolesOverlap(positions) && a.auto && Closes(a.kind)
    ensures var batch := Batch(feeds, positions, a, notes);
      var gone := a.kind == CloseFull || a.kind == if side == Call then CloseCallSpread else ClosePutSpread;
      && Left(positions, batch, Short(side), key) == (if gone then 0 else HeldIn(positions, Short(side), key))
      && Left(positions, batch, Long(side), key) == (if gone then 0 else HeldIn(positions, Long(side), key))
  {
    ClosingLeaves(feeds, positions, Closed(a), notes, Short(side), key);
    ClosingLeaves(feeds, positions, Closed(a), notes, Long(side), key);
    OnlyOneChosen(positions, Short(side), key);
    OnlyOneChosen(positions, Long(side), key);
  }

  lemma OnlyOneChosen(positions: seq<Position>, role: LegRole, key: Key)
    requires Grouped(positions) && !RolesOverlap(positions) && role in IC_ROLES
    ensures HeldIn(positions, role, key) == 0 || Chosen(positions, role, key)
  {
    if HeldIn(positions, role, key) != 0 {
      var i := HolderOf(positions, role, key);
      NewestIsListed(positions, role);
    }
  }

  /** An auto-executed Zone 2 stores the lock its event carried, marked executed; what a payload leaves out is zero, so
      the lock is in zone 2 with no debit and no width. */
  lemma StoredLockIsExecuted(t: Tick, lock: Lock)
    requires t.decision.LockWings? && ShortsKnown(t)
    ensures Some(StoredLock(ZoneTwo(t, lock).lock)) == ZoneTwo(t, lock).lock
    ensures var d := StoredLock(None);
      d.zone == 2 && d.zone2Executed && !d.zone3Executed && d.cumulativeDebit == 0.0 && d.putWidth == d.callWidth == 0
  {
  }
}
