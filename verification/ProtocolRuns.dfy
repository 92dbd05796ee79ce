/** Runs of the claim protocol in which only one actor takes steps. */
module ProtocolRuns {
  import opened Detector
  import opened Policies

  /** Who takes steps. When a template worker is calm it does not fail, and neither does a policy worker that is to be
      done. When everyone takes steps nobody fails, and policies are put in certain versions only, whatever their IDs. */
  datatype Actor =
    | Everyone(versions: iset<Policy>)
    | TemplateWorker(q: QueueKey, calm: bool)
    | PolicyWorker(ref: PolicyRef, done: bool)

  /** IDs are generated and not chosen. */
  predicate Puts(a: Action, versions: iset<Policy>) {
    a.PutPolicy? ==> a.policy.(id := "") in versions
  }

  predicate StepOf(a: Action, who: Actor) {
    match who
    case Everyone(versions) => !a.Fail? && !a.FailPolicy? && (a.Apply? ==> a.bindingWritten) && Puts(a, versions)
    case TemplateWorker(q, calm) =>
      || ((a.Dequeue? || a.ReadObject? || a.Drop? || a.FollowClaim? || a.Settle?) && a.q == q)
      || ((a.LookForPolicy? || a.LookForClusterPolicy? || a.ReleaseDangling?) && a.q == q)
      || (a.Apply? && a.q == q && (calm ==> a.bindingWritten))
      || (a.Fail? && a.q == q && !calm)
    case PolicyWorker(ref, done) =>
      || ((a.RemoveUnmatched? || a.Refresh? || a.Match? || a.Release? || a.Preempt?) && a.ref == ref)
      || ((a.DequeuePolicy? || a.DonePolicy?) && a.ref == ref)
      || (a.FailPolicy? && a.ref == ref && !done)
  }

  ghost predicate IsWork(s: State, actions: seq<Action>, t: State, who: Actor) {
    Runs(s, actions, t) && forall a <- actions :: StepOf(a, who)
  }

  /** The actor leads from `s` to `t`. */
  ghost predicate Works(s: State, t: State, who: Actor) {
    exists actions :: IsWork(s, actions, t, who)
  }

  lemma NoStep(s: State, who: Actor)
    ensures Works(s, s, who)
  {
    assert Runs(s, [], s);
    assert IsWork(s, [], s, who);
  }

  lemma OneStep(s: State, a: Action, t: State, who: Actor)
    requires StepOf(a, who) && Enabled(s, a) && Do(s, a) == t
    ensures Works(s, t, who)
  {
    hide Enabled, Do, StepOf;
    assert Runs(t, [], t);
    assert [a][1..] == [];
    assert IsWork(s, [a], t, who);
  }

  lemma {:induction false} MoreWork(
      s: State, first: seq<Action>, t: State, second: seq<Action>, u: State, who: Actor)
    requires IsWork(s, first, t, who) && IsWork(t, second, u, who)
    ensures IsWork(s, first + second, u, who)
    decreases |first|
  {
    hide Enabled, Do, StepOf;
    if first == [] {
      assert first + second == second;
    } else {
      MoreWork(Do(s, first[0]), first[1..], t, second, u, who);
      assert (first + second)[1..] == first[1..] + second;
    }
  }

  lemma Then(s: State, t: State, u: State, who: Actor)
    requires Works(s, t, who) && Works(t, u, who)
    ensures Works(s, u, who)
  {
    var first :| IsWork(s, first, t, who);
    var second :| IsWork(t, second, u, who);
    MoreWork(s, first, t, second, u, who);
  }
}
