/** The authorization lifecycle of one exam context and its archive of revoked identities. */
module Lifecycle {
  import opened Bytes

  const MAX_REVOKED: nat := 16
  const MAX_ID_BYTES: nat := 128

  datatype Identity = Identity(
    packageId: seq<byte>, packageDigest: Bytes32, clientId: Bytes16, sessionId: Bytes16, candidateId: seq<byte>)
  {
    predicate Empty() {
      packageId == [] && candidateId == []
    }

    predicate Bound() {
      packageId != [] && candidateId != [] &&
      HasNonzero(packageDigest) && HasNonzero(clientId) && HasNonzero(sessionId)
    }

    /** What the wire validator of an enable command demands of its identity. */
    predicate Valid() {
      HasNonzero(packageDigest) && HasNonzero(clientId) && HasNonzero(sessionId) &&
      ValidText(packageId, MAX_ID_BYTES) && ValidText(candidateId, MAX_ID_BYTES)
    }
  }

  const UNBOUND := Identity([], Zeros(32), Zeros(16), Zeros(16), [])

  datatype State = Disabled | Enabled | Suspended | Revoked

  /** A persisted state byte: one of the four states, or anything else. */
  datatype Persisted = Known(state: State) | Unknown

  datatype Transition = Transition(
    accepted: bool, stateChanged: bool, previous: State, current: State, clearInflight: bool, purgeOutbox: bool)

  datatype Life = Life(context: Identity, state: State, revoked: seq<Identity>)
  {
    ghost predicate Valid() {
      && |revoked| <= MAX_REVOKED
      && (forall i, j :: 0 <= i < j < |revoked| ==> revoked[i] != revoked[j])
      && (forall id :: id in revoked ==> id.Bound())
      && (context in revoked ==> state == Revoked)
    }

    predicate IsRevoked(id: Identity) {
      id in revoked || (state == Revoked && context == id)
    }

    predicate NeedsArchive() {
      state == Revoked && context.Bound() && context !in revoked
    }

    predicate CanSetContext(id: Identity) {
      id == context ||
      !(|revoked| == MAX_REVOKED && (NeedsArchive() || id !in revoked))
    }

    function SetContext(id: Identity): Life {
      if id == context || !CanSetContext(id) then this
      else
        var archive := if NeedsArchive() then revoked + [context] else revoked;
        Life(id, if id in archive then Revoked else Disabled, archive)
    }

    predicate AcceptsEnable(id: Identity) {
      context.Bound() && context == id && state != Revoked
    }

    function Enable(id: Identity): Life {
      if AcceptsEnable(id) then this.(state := Enabled) else this
    }

    function Disconnect(): Life {
      if state == Enabled then this.(state := Suspended) else this
    }

    function Stop(): Life {
      this.(state := Revoked)
    }

    function Restart(persisted: Persisted): Life {
      if persisted.Unknown? || state == Revoked then this.(state := Revoked)
      else if persisted.state == Enabled then this.(state := Suspended)
      else this.(state := persisted.state)
    }
  }

  const FRESH := Life(UNBOUND, Disabled, [])

  /** The constructor that starts from a given context and a raw state. */
  function Initial(context: Identity, persisted: Persisted): Life {
    var state :=
      if persisted.Unknown? then Revoked
      else if !context.Bound() && (persisted.state == Enabled || persisted.state == Suspended) then Disabled
      else persisted.state;
    Life(context, state, [])
  }

  datatype Event = SetContext(id: Identity) | Enable(id: Identity) | Disconnect | Stop | Restart(persisted: Persisted)

  function Step(l: Life, e: Event): Life {
    match e
    case SetContext(id) => l.SetContext(id)
    case Enable(id) => l.Enable(id)
    case Disconnect => l.Disconnect()
    case Stop => l.Stop()
    case Restart(p) => l.Restart(p)
  }

  function Run(l: Life, events: seq<Event>): Life
    decreases |events|
  {
    if events == [] then l else Run(Step(l, events[0]), events[1..])
  }

  lemma StepKeepsValid(l: Life, e: Event)
    requires l.Valid()
    ensures Step(l, e).Valid()
    ensures l.revoked <= Step(l, e).revoked
  {
    if e.SetContext? && e.id != l.context && l.CanSetContext(e.id) && l.NeedsArchive() {
      var archive := l.revoked + [l.context];
      assert forall id :: id in archive ==> id in l.revoked || id == l.context;
    }
  }

  /** Over every run of events a revoked bound identity stays revoked, and the archive only grows within its bound. */
  lemma {:induction false} RevocationOnlyGrows(l: Life, events: seq<Event>)
    requires l.Valid()
    ensures Run(l, events).Valid()
    ensures l.revoked <= Run(l, events).revoked
    ensures forall id: Identity :: id.Bound() && l.IsRevoked(id) ==> Run(l, events).IsRevoked(id)
    decreases |events|
  {
    if events != [] {
      var next := Step(l, events[0]);
      StepKeepsValid(l, events[0]);
      forall id: Identity | id.Bound() && l.IsRevoked(id)
        ensures next.IsRevoked(id)
      {
        if events[0].SetContext? && l.NeedsArchive() {
          assert (l.revoked + [l.context])[|l.revoked|] == l.context;
        }
      }
      RevocationOnlyGrows(next, events[1..]);
    }
  }

  /** Rebinding forgets a revocation exactly when the revoked identity was never fully bound. */
  lemma RebindKeepsRevocationIffBound(l: Life, id: Identity, revoked: Identity)
    requires l.Valid() && l.IsRevoked(revoked)
    requires id != l.context && id != revoked && l.CanSetContext(id)
    ensures l.SetContext(id).IsRevoked(revoked) <==> revoked.Bound()
  {
    if revoked.Bound() {
      RevocationOnlyGrows(l, [SetContext(id)]);
      assert Run(l, [SetContext(id)]) == Run(l.SetContext(id), []);
    }
  }

  /** The failing case: a lifecycle stopped before any binding is revoked, and binding a context forgets that. */
  lemma UnboundRevocationForgotten(id: Identity)
    requires id.Valid()
    ensures !UNBOUND.Bound() && FRESH.Valid()
    ensures Run(FRESH, [Stop]).IsRevoked(UNBOUND) && !Run(FRESH, [Stop, SetContext(id)]).IsRevoked(UNBOUND)
    ensures Run(FRESH, [Stop, SetContext(id)]) == Run(FRESH, [SetContext(id)])
  {
    ValidIsBound(id);
    var stopped := Life(UNBOUND, Revoked, []);
    assert Run(FRESH, [Stop]) == Run(stopped, []);
    assert [Stop, SetContext(id)][1..] == [SetContext(id)];
    assert Run(FRESH, [Stop, SetContext(id)]) == Run(stopped, [SetContext(id)]) == Run(Life(id, Disabled, []), []);
    assert Run(FRESH, [SetContext(id)]) == Run(Life(id, Disabled, []), []);
  }

  /** No restart authorizes collection, whatever the persisted byte said. */
  lemma RestartNeverEnables(l: Life, p: Persisted)
    ensures l.Restart(p).state != Enabled
    ensures l.state == Revoked || p == Unknown || p == Known(Revoked) <==> l.Restart(p).state == Revoked
    ensures l.Restart(p).Disconnect() == l.Restart(p)
  {
  }

  /** Enabling succeeds on an identity only in a run that never revoked it before. */
  lemma {:induction false} NoEnableAfterRevocation(l: Life, events: seq<Event>, id: Identity)
    requires l.Valid() && id.Bound() && l.IsRevoked(id)
    ensures !Run(l, events).AcceptsEnable(id)
    ensures Run(l, events).context == id ==> Run(l, events).state == Revoked
  {
    RevocationOnlyGrows(l, events);
  }

  /** Rebuilds a lifecycle by replaying archived identities one by one; None when an identity is a duplicate. */
  function Replay(l: Life, ids: seq<Identity>): Option<Life>
    decreases |ids|
  {
    if ids == [] then Some(l)
    else if !ids[0].Valid() || l.IsRevoked(ids[0]) || !l.CanSetContext(ids[0]) then None
    else Replay(l.SetContext(ids[0]).Stop(), ids[1..])
  }

  lemma ValidIsBound(id: Identity)
    requires id.Valid()
    ensures id.Bound() && id != UNBOUND
  {
  }

  /** A lifecycle that has replayed `done`: the last one is current and revoked, the others archived. */
  ghost predicate Replayed(l: Life, done: seq<Identity>) {
    if done == [] then l == FRESH
    else l == Life(done[|done| - 1], Revoked, done[..|done| - 1])
  }

  lemma {:induction false} ReplaySucceeds(l: Life, done: seq<Identity>, ids: seq<Identity>)
    requires Replayed(l, done)
    requires |done + ids| <= MAX_REVOKED
    requires forall i, j :: 0 <= i < j < |done + ids| ==> (done + ids)[i] != (done + ids)[j]
    requires forall id :: id in done + ids ==> id.Valid()
    ensures Replay(l, ids).Some? && Replayed(Replay(l, ids).value, done + ids)
    decreases |ids|
  {
    if ids == [] {
      assert done + ids == done;
    } else {
      var all := done + ids;
      assert all[|done|] == ids[0];
      ValidIsBound(ids[0]);
      if done != [] {
        ValidIsBound(done[|done| - 1]);
        assert all[|done| - 1] == done[|done| - 1];
      }
      forall k | 0 <= k < |done|
        ensures done[k] != ids[0]
      {
        assert all[k] == done[k];
      }
      assert l.NeedsArchive() <==> done != [] by {
        if done != [] {
          forall k | 0 <= k < |done| - 1
            ensures done[k] != done[|done| - 1]
          {
            assert all[k] == done[k];
          }
        }
      }
      assert !l.IsRevoked(ids[0]);
      var next := l.SetContext(ids[0]).Stop();
      var done' := done + [ids[0]];
      assert done'[..|done'| - 1] == done;
      assert done != [] ==> done[..|done| - 1] + [done[|done| - 1]] == done;
      assert Replayed(next, done');
      assert done' + ids[1..] == all;
      ReplaySucceeds(next, done', ids[1..]);
    }
  }

  lemma ReplayFresh(ids: seq<Identity>)
    requires |ids| <= MAX_REVOKED
    requires forall i, j :: 0 <= i < j < |ids| ==> ids[i] != ids[j]
    requires forall id :: id in ids ==> id.Valid()
    ensures Replay(FRESH, ids).Some? && Replayed(Replay(FRESH, ids).value, ids)
  {
    hide Identity.Valid, Replay;
    assert Replayed(FRESH, []);
    hide Replayed;
    assert [] + ids == ids;
    ReplaySucceeds(FRESH, [], ids);
  }

  /** Binding a new context to a lifecycle that has replayed an archive archives its last identity. */
  lemma RebindRebuilds(l: Life, archive: seq<Identity>, context: Identity)
    requires Replayed(l, archive) && |archive| <= MAX_REVOKED && context !in archive
    requires forall i, j :: 0 <= i < j < |archive| ==> archive[i] != archive[j]
    requires forall id :: id in archive ==> id.Bound()
    ensures l.CanSetContext(context) && l.SetContext(context) == Life(context, Disabled, archive)
  {
    hide Identity.Bound;
    if archive == [] {
      NotBound();
      assert l.SetContext(context) == Life(context, Disabled, []);
    } else {
      var last := |archive| - 1;
      assert archive[..last] + [archive[last]] == archive;
      assert archive[last] in archive;
      assert archive[last] !in archive[..last];
    }
  }

  lemma NotBound()
    ensures !UNBOUND.Bound()
  {
  }

  /**
   * Replaying a duplicate-free archive and binding the saved context rebuilds exactly the saved archive,
   * even when the archive is full; an authorized context comes back suspended.
   */
  lemma ReplayRebuilds(saved: Life)
    requires saved.Valid() && saved.context !in saved.revoked
    requires forall id :: id in saved.revoked ==> id.Valid()
    ensures Replay(FRESH, saved.revoked).Some?
    ensures var l := Replay(FRESH, saved.revoked).value;
            l.CanSetContext(saved.context) &&
            !l.SetContext(saved.context).IsRevoked(saved.context) &&
            l.SetContext(saved.context).Restart(Known(saved.state)) == saved.Disconnect()
  {
    hide Identity.Valid, Identity.Bound, Replay, Life.SetContext, Life.CanSetContext, Replayed;
    ReplayFresh(saved.revoked);
    forall id | id in saved.revoked
      ensures id.Bound()
    {
      ValidIsBound(id);
    }
    RebindRebuilds(Replay(FRESH, saved.revoked).value, saved.revoked, saved.context);
  }

  /** The object the service keeps: a bounded array of revoked identities beside the current context. */
  class ExamTelemetryLifecycle {
    var context: Identity
    var state: State
    const revoked: array<Identity>
    var revokedCount: nat

    ghost predicate Valid()
      reads this, revoked
    {
      revoked.Length == MAX_REVOKED && revokedCount <= MAX_REVOKED && View().Valid()
    }

    ghost function View(): Life
      reads this, revoked
      requires revokedCount <= revoked.Length
    {
      Life(context, state, revoked[..revokedCount])
    }

    constructor (context: Identity, persisted: Persisted)
      ensures Valid() && fresh(revoked)
      ensures View() == Initial(context, persisted)
    {
      this.context := context;
      revoked := new Identity[MAX_REVOKED](_ => UNBOUND);
      revokedCount := 0;
      if persisted.Unknown? {
        state := Revoked;
      } else if !context.Bound() && (persisted.state == Enabled || persisted.state == Suspended) {
        state := Disabled;
      } else {
        state := persisted.state;
      }
    }

    method Archived(id: Identity) returns (found: bool)
      requires Valid()
      ensures found <==> id in View().revoked
    {
      for i := 0 to revokedCount
        invariant id !in revoked[..i]
      {
        assert revoked[..i + 1] == revoked[..i] + [revoked[i]];
        if revoked[i] == id {
          return true;
        }
      }
      return false;
    }

    method IsIdentityRevoked(id: Identity) returns (r: bool)
      requires Valid()
      ensures r <==> View().IsRevoked(id)
    {
      r := Archived(id);
      if !r && state == Revoked && context == id {
        r := true;
      }
    }

    method SetContext(id: Identity) returns (ok: bool)
      requires Valid()
      modifies this, revoked
      ensures Valid()
      ensures ok == old(View()).CanSetContext(id)
      ensures View() == old(View()).SetContext(id)
    {
      if id == context {
        return true;
      }
      StepKeepsValid(View(), Event.SetContext(id));
      var contextArchived := Archived(context);
      var needsArchive := state == Revoked && context.Bound() && !contextArchived;
      var target := Archived(id);
      if revokedCount == MAX_REVOKED && (needsArchive || !target) {
        return false;
      }
      if needsArchive {
        revoked[revokedCount] := context;
        revokedCount := revokedCount + 1;
        assert revoked[..revokedCount] == old(revoked[..revokedCount]) + [context];
        target := Archived(id);
      }
      context := id;
      state := if target then Revoked else Disabled;
      return true;
    }

    method OnEnable(id: Identity) returns (t: Transition)
      requires Valid()
      modifies this`state
      ensures Valid() && View() == old(View()).Enable(id)
      ensures t.accepted == old(View()).AcceptsEnable(id)
      ensures t.previous == old(state) && t.current == state && t.stateChanged == (old(state) != state)
      ensures !t.clearInflight && !t.purgeOutbox
    {
      StepKeepsValid(View(), Event.Enable(id));
      if !context.Bound() || context != id || state == Revoked {
        return Transition(false, false, state, state, false, false);
      }
      var before := state;
      state := Enabled;
      t := Transition(true, before != Enabled, before, state, false, false);
    }

    method OnDisconnect() returns (t: Transition)
      requires Valid()
      modifies this`state
      ensures Valid() && View() == old(View()).Disconnect()
      ensures t.accepted && t.previous == old(state) && t.current == state
      ensures t.stateChanged == t.clearInflight == (old(state) == Enabled) && !t.purgeOutbox
    {
      StepKeepsValid(View(), Event.Disconnect);
      var before := state;
      if state == Enabled {
        state := Suspended;
      }
      t := Transition(true, before == Enabled, before, state, before == Enabled, false);
    }

    method OnExplicitStop() returns (t: Transition)
      requires Valid()
      modifies this`state
      ensures Valid() && View() == old(View()).Stop()
      ensures t.accepted && t.previous == old(state) && t.current == Revoked
      ensures t.stateChanged == t.purgeOutbox == (old(state) != Revoked) && !t.clearInflight
    {
      StepKeepsValid(View(), Event.Stop);
      var before := state;
      if state != Revoked {
        state := Revoked;
      }
      t := Transition(true, before != Revoked, before, state, false, before != Revoked);
    }

    method OnServiceRestart(persisted: Persisted) returns (t: Transition)
      requires Valid()
      modifies this`state
      ensures Valid() && View() == old(View()).Restart(persisted)
      ensures t.accepted == persisted.Known? && t.previous == old(state) && t.current == state
      ensures t.stateChanged == (old(state) != state) && !t.purgeOutbox
      ensures t.clearInflight == (persisted.Unknown? || (old(state) != Revoked && state == Suspended))
    {
      StepKeepsValid(View(), Event.Restart(persisted));
      var before := state;
      match persisted {
        case Unknown =>
          state := Revoked;
          t := Transition(false, before != state, before, state, true, false);
        case Known(p) =>
          if before == Revoked {
            t := Transition(true, false, before, before, false, false);
          } else {
            var clear := p == Enabled || p == Suspended;
            state := if clear then Suspended else p;
            t := Transition(true, before != state, before, state, clear, false);
          }
      }
    }
  }
}
