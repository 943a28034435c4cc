/** The embedding model's revision: how the adapter verifies it, and how long it
waits after a failed probe; and how a search guards against the revision
changing while the query is being embedded. */
module RevisionProbe {
  import opened Common
  import opened EmbeddingStore

  // The identity a row filter uses; re-verifying the same weights does not change it.
  predicate SameRevision(a: Snapshot, b: Snapshot) {
    a.known == b.known && a.value == b.value
  }

  // The answer of /api/tags: the model listed (perhaps without a digest), or anything else.
  datatype Tags = Listed(digest: Revision) | Unusable

  const COOLDOWN := 30.0

  datatype Adapter = Adapter(revision: Snapshot, failures: nat, lastFailure: Option<real>)

  const UNKNOWN := Snapshot(false, None, 0.0)

  predicate InCooldown(a: Adapter, now: real) {
    a.lastFailure.Some? && now - a.lastFailure.value < COOLDOWN
  }

  function Probed(a: Adapter, now: real, tags: Tags): Adapter {
    match tags
    case Listed(digest) => Adapter(Snapshot(true, digest, now), 0, None)
    case Unusable => Adapter(a.revision, a.failures + 1, Some(now))
  }

  predicate Probes(a: Adapter, force: bool, now: real, lockAcquired: bool) {
    lockAcquired && (force || !(a.revision.known || InCooldown(a, now)))
  }

  // A call of `refresh_revision` (serialized by the probe lock), or an embed the server answered.
  datatype Call =
    | Refresh(force: bool, now: real, lockAcquired: bool, tags: Tags)
    | EmbedAnswered

  function Called(a: Adapter, c: Call): Adapter {
    match c
    case Refresh(force, now, lockAcquired, tags) =>
      if Probes(a, force, now, lockAcquired) then Probed(a, now, tags) else a
    case EmbedAnswered => a.(lastFailure := None)
  }

  function After(a: Adapter, calls: seq<Call>): Adapter
    decreases |calls|
  {
    if calls == [] then a else After(Called(a, calls[0]), calls[1..])
  }

  class OllamaAdapter {
    var revision: Snapshot
    var probeFailures: nat
    var lastProbeFailure: Option<real>

    function State(): Adapter
      reads this
    {
      Adapter(revision, probeFailures, lastProbeFailure)
    }

    constructor ()
      ensures State() == Adapter(UNKNOWN, 0, None)
    {
      revision, probeFailures, lastProbeFailure := UNKNOWN, 0, None;
    }

    method RefreshRevision(force: bool, now: real, lockAcquired: bool, tags: Tags) returns (snapshot: Snapshot)
      modifies this
      ensures State() == Called(old(State()), Refresh(force, now, lockAcquired, tags))
      ensures snapshot == revision
      ensures var due := old(lastProbeFailure).None? || now - old(lastProbeFailure).value >= 30.0;
              var probed := lockAcquired && (force || (!old(revision).known && due));
              && (probed && tags.Listed? ==>
                    revision == Snapshot(true, tags.digest, now) && probeFailures == 0 && lastProbeFailure.None?)
              && (probed && tags.Unusable? ==>
                    probeFailures == old(probeFailures) + 1 && lastProbeFailure == Some(now))
              && (!probed ==> State() == old(State()))
      ensures old(revision).known ==> revision.known
      ensures tags.Unusable? ==> revision == old(revision)
    {
      if !lockAcquired {
        return revision;
      }
      if !force && (revision.known || InCooldown(State(), now)) {
        return revision;
      }
      if tags.Listed? {
        ProbeSucceeded(tags.digest, now);
      } else {
        ProbeFailed(now);
      }
      return revision;
    }

    // The server just answered, so a failed probe's cooldown no longer applies.
    method EmbedSucceeded()
      modifies this
      ensures State() == Called(old(State()), EmbedAnswered)
      ensures lastProbeFailure.None? && revision == old(revision) && probeFailures == old(probeFailures)
    {
      lastProbeFailure := None;
    }

    method ProbeSucceeded(digest: Revision, now: real)
      modifies this
      ensures State() == Probed(old(State()), now, Listed(digest))
    {
      revision := Snapshot(true, digest, now);
      probeFailures, lastProbeFailure := 0, None;
    }

    method ProbeFailed(now: real)
      modifies this
      ensures State() == Probed(old(State()), now, Unusable)
    {
      probeFailures, lastProbeFailure := probeFailures + 1, Some(now);
    }
  }

  /** A verified revision never becomes unknown, and a history whose probes all fail changes nothing. */
  lemma {:induction false} VerifiedStaysVerified(a: Adapter, calls: seq<Call>)
    ensures a.revision.known ==> After(a, calls).revision.known
    ensures (forall r | r in calls :: r.Refresh? ==> r.tags.Unusable?) ==> After(a, calls).revision == a.revision
    decreases |calls|
  {
    if calls != [] {
      assert calls[0] in calls;
      VerifiedStaysVerified(Called(a, calls[0]), calls[1..]);
    }
  }

  /** After a history with at least one probe that got through, the value is the digest the last
  successful probe listed. */
  lemma {:induction false} ValueIsLastListed(a: Adapter, calls: seq<Call>, k: nat)
    requires k < |calls| && calls[k].Refresh? && calls[k].tags.Listed?
    requires Probes(After(a, calls[..k]), calls[k].force, calls[k].now, calls[k].lockAcquired)
    requires forall i | k < i < |calls| :: calls[i].Refresh? ==> calls[i].tags.Unusable?
    ensures After(a, calls).revision == Snapshot(true, calls[k].tags.digest, calls[k].now)
  {
    AfterSplit(a, calls, k);
    var b := After(a, calls[..k]);
    assert calls[k..][1..] == calls[k + 1..];
    forall r | r in calls[k + 1..] ensures r.Refresh? ==> r.tags.Unusable? {
      var i :| 0 <= i < |calls[k + 1..]| && calls[k + 1..][i] == r;
      assert r == calls[k + 1 + i];
    }
    VerifiedStaysVerified(Called(b, calls[k]), calls[k + 1..]);
  }

  lemma {:induction false} AfterSplit(a: Adapter, calls: seq<Call>, k: nat)
    requires k <= |calls|
    ensures After(a, calls) == After(After(a, calls[..k]), calls[k..])
    decreases k
  {
    if k == 0 {
      assert calls[0..] == calls;
    } else {
      assert calls[..k][0] == calls[0] && calls[..k][1..] == calls[1..][..k - 1];
      assert calls[1..][k - 1..] == calls[k..];
      AfterSplit(Called(a, calls[0]), calls[1..], k - 1);
    }
  }

  /** While nothing has verified a revision, a failed probe is followed by no other for half a minute, unless
  one is forced or an embed is answered first, and from then on by one at the first call that gets the
  lock; that one verifies whatever the server lists. Once a revision is verified only a forced call asks. */
  lemma NextProbeAfterAFailure(a: Adapter, failed: real, force: bool, now: real, lockAcquired: bool, digest: Revision)
    requires a.lastFailure == Some(failed)
    ensures var b := After(a, [Refresh(force, now, lockAcquired, Listed(digest))]);
            && (lockAcquired && (force || (!a.revision.known && now >= failed + 30.0)) ==>
                  b == Adapter(Snapshot(true, digest, now), 0, None))
            && (!lockAcquired || (!force && (a.revision.known || now < failed + 30.0)) ==> b == a)
    ensures var b := After(a, [EmbedAnswered, Refresh(force, now, lockAcquired, Listed(digest))]);
            && (lockAcquired && (force || !a.revision.known) ==> b == Adapter(Snapshot(true, digest, now), 0, None))
            && (!lockAcquired || (!force && a.revision.known) ==> b == Adapter(a.revision, a.failures, None))
    ensures var b := After(a, [Refresh(force, now, lockAcquired, Unusable)]);
            && b.revision == a.revision
            && (lockAcquired && (force || (!a.revision.known && now >= failed + 30.0)) ==>
                  b.failures == a.failures + 1 && b.lastFailure == Some(now))
            && (!lockAcquired || (!force && (a.revision.known || now < failed + 30.0)) ==> b == a)
  {
    var lists := Refresh(force, now, lockAcquired, Listed(digest));
    assert [EmbedAnswered, lists][1..] == [lists];
    assert After(a, [EmbedAnswered, lists]) == After(a.(lastFailure := None), [lists]) == Called(a.(lastFailure := None), lists);
    assert After(a, [lists]) == Called(a, lists);
    var fails := Refresh(force, now, lockAcquired, Unusable);
    assert After(a, [fails]) == Called(a, fails);
  }

  /** And the first call of all, or the first after an answered embed, probes without waiting. */
  lemma FirstProbeIsNotDelayed(a: Adapter, force: bool, now: real, digest: Revision)
    requires a.lastFailure.None?
    ensures After(a, [Refresh(force, now, true, Listed(digest))]).revision
         == (if force || !a.revision.known then Snapshot(true, digest, now) else a.revision)
  {
    var call := Refresh(force, now, true, Listed(digest));
    assert After(a, [call]) == Called(a, call);
  }

  // ---------- the guard around a query embed ----------

  datatype Guard = Rank(snapshot: Snapshot) | RevisionChanged

  // Stable around the first embed, or around the second without losing a revision the search opened with.
  ghost predicate Accepts(s0: Snapshot, s1: Snapshot, s2: Snapshot) {
    SameRevision(s0, s1) || (SameRevision(s1, s2) && (s0.known ==> s1.known))
  }

  /** The retry loop of a semantic search. `seen[0]` is the snapshot before the first embed and
  `seen[i]` the one after the i-th. */
  method GuardQuery(seen: seq<Snapshot>) returns (guard: Guard)
    requires |seen| == 3
    ensures guard.Rank? <==> Accepts(seen[0], seen[1], seen[2])
    ensures guard.Rank? ==>
              exists i :: 0 <= i < 2 && guard.snapshot == seen[i]
                          && seen[i].known == seen[i + 1].known && seen[i].value == seen[i + 1].value
    ensures seen[0].known == seen[1].known && seen[0].value == seen[1].value ==> guard == Rank(seen[0])
    ensures (seen[0].known != seen[1].known || seen[0].value != seen[1].value)
            && seen[1].known == seen[2].known && seen[1].value == seen[2].value && (seen[0].known ==> seen[1].known)
            ==> guard == Rank(seen[1])
    ensures guard.Rank? && seen[0].known ==> guard.snapshot.known
  {
    var snapshot := seen[0];
    var attempt := 0;
    while attempt < 2
      invariant 0 <= attempt <= 2 && (attempt < 2 ==> snapshot == seen[attempt])
      invariant attempt > 0 ==> !SameRevision(seen[0], seen[1])
      invariant attempt <= 1
    {
      var after := seen[attempt + 1];
      if SameRevision(snapshot, after) {
        if seen[0].known && !after.known {
          return RevisionChanged;
        }
        assert SameRevision(seen[attempt], seen[attempt + 1]);
        return Rank(snapshot);
      }
      if attempt > 0 {
        return RevisionChanged;
      }
      snapshot := after;
      attempt := attempt + 1;
    }
    return RevisionChanged;
  }

  /** With the snapshots of one adapter the search gives up exactly when the revision changed around both
  embeds: the unknown-after-known refusal is never the reason. */
  lemma GivesUpOnlyOnChurn(a: Adapter, first: seq<Call>, second: seq<Call>)
    ensures Accepts(a.revision, After(a, first).revision, After(After(a, first), second).revision)
       <==> SameRevision(a.revision, After(a, first).revision)
            || SameRevision(After(a, first).revision, After(After(a, first), second).revision)
  {
    VerifiedStaysVerified(a, first);
    VerifiedStaysVerified(After(a, first), second);
  }
}
