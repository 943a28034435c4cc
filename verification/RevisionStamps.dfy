/** The revision a row is stamped with, against the weights that computed it. Weights are pulled while
probes and embeds are under way, and every step interleaves with every other. */
module RevisionStamps {
  import opened Common
  import opened EmbeddingStore

  type Task = nat

  // An embed under way: the snapshot it will stamp, and what computed its answer once there is one.
  // Weights are named by their place among the pulls.
  datatype Flight = Flight(id: Id, content: Content, space: Space, stamp: nat, answer: Option<(nat, Payload)>)

  // `stamps` and `makers` remember, for each stored row, the pull it is stamped with and the pull that
  // computed it; no code reads them.
  datatype System = System(
    pulls: seq<Revision>, probing: Option<nat>, snapshot: Option<nat>, flights: map<Task, Flight>,
    data: Data, stamps: map<Id, nat>, makers: map<Id, nat>)

  const EMPTY := System([], None, None, map[], Data(map[], map[]), map[], map[])

  datatype Step =
    | Pull(digest: Revision)
    | StartProbe
    | EndProbe(ok: bool)  // what it read may be out of date by now; a failed probe keeps the value
    | Add(id: Id, content: Content)
    | WriteContent(id: Id, content: Content)
    | DropVector(id: Id)
    | Delete(id: Id)
    | StartEmbed(task: Task, id: Id, content: Content, space: Space)  // with the snapshot of now
    | Answer(task: Task, numbers: Option<seq<real>>)  // by the weights of now; None is an over-long input
    | Publish(task: Task)

  function Answered(f: Flight, maker: nat, numbers: Option<seq<real>>): Flight {
    f.(answer := Some((maker, if numbers.Some? then Vector(f.content, numbers.value) else Tombstone(f.content))))
  }

  function Published(s: System, task: Task): System
    requires task in s.flights && s.flights[task].answer.Some? && s.flights[task].stamp < |s.pulls|
  {
    var f := s.flights[task];
    var row := Row(f.space, s.pulls[f.stamp], HashOf(f.content), f.answer.value.1);
    var t := s.(flights := s.flights - {task});
    if !SwapAllowed(s.data, f.id, row.contentHash) then t else
    t.(data := Saved(s.data, f.id, row), stamps := s.stamps[f.id := f.stamp], makers := s.makers[f.id := f.answer.value.0])
  }

  function Next(s: System, step: Step): System {
    match step
    case Pull(digest) => s.(pulls := s.pulls + [digest])
    case StartProbe => if s.pulls == [] then s else s.(probing := Some(|s.pulls| - 1))
    case EndProbe(ok) =>
      if s.probing.None? then s else s.(probing := None, snapshot := if ok then s.probing else s.snapshot)
    case Add(id, content) => s.(data := Added(s.data, id, content))
    case WriteContent(id, content) => s.(data := Updated(s.data, id, content))
    case DropVector(id) => s.(data := Invalidated(s.data, id))
    case Delete(id) => s.(data := Deleted(s.data, id))
    case StartEmbed(task, id, content, space) =>
      if task in s.flights || s.snapshot.None? then s else
      s.(flights := s.flights[task := Flight(id, content, space, s.snapshot.value, None)])
    case Answer(task, numbers) =>
      if task !in s.flights || s.flights[task].answer.Some? || s.pulls == [] then s else
      s.(flights := s.flights[task := Answered(s.flights[task], |s.pulls| - 1, numbers)])
    case Publish(task) =>
      if task !in s.flights || s.flights[task].answer.None? || s.flights[task].stamp >= |s.pulls| then s else
      Published(s, task)
  }

  function After(s: System, steps: seq<Step>): System
    decreases |steps|
  {
    if steps == [] then s else After(Next(s, steps[0]), steps[1..])
  }

  ghost predicate FlightTrails(s: System, f: Flight) {
    f.stamp < |s.pulls| && (f.answer.Some? ==> f.stamp <= f.answer.value.0 < |s.pulls|)
  }

  ghost predicate RowTrails(s: System, id: Id) {
    && id in s.data.rows && id in s.stamps && id in s.makers
    && s.stamps[id] <= s.makers[id] < |s.pulls|
    && s.data.rows[id].revision == s.pulls[s.stamps[id]]
  }

  ghost predicate Inv(s: System) {
    && (s.probing.Some? ==> s.probing.value < |s.pulls|)
    && (s.snapshot.Some? ==> s.snapshot.value < |s.pulls|)
    && (forall t | t in s.flights :: FlightTrails(s, s.flights[t]))
    && (forall id | id in s.data.rows :: RowTrails(s, id))
  }

  // A step that publishes nothing leaves each row it keeps as it was.
  lemma RowsTrail(s: System, step: Step, id: Id)
    requires Inv(s) && !step.Publish? && id in Next(s, step).data.rows
    ensures RowTrails(Next(s, step), id)
  {
    assert RowTrails(s, id);
  }

  lemma PublishTrails(s: System, task: Task, id: Id)
    requires Inv(s) && id in Next(s, Publish(task)).data.rows
    ensures RowTrails(Next(s, Publish(task)), id)
  {
    assert task in s.flights ==> FlightTrails(s, s.flights[task]);
    assert id in s.data.rows ==> RowTrails(s, id);
  }

  lemma FlightsTrail(s: System, step: Step, t: Task)
    requires Inv(s) && t in Next(s, step).flights
    ensures FlightTrails(Next(s, step), Next(s, step).flights[t])
  {
    assert t in s.flights ==> FlightTrails(s, s.flights[t]);
  }

  lemma NextTrails(s: System, step: Step)
    requires Inv(s)
    ensures Inv(Next(s, step))
  {
    var s' := Next(s, step);
    forall t | t in s'.flights
      ensures FlightTrails(s', s'.flights[t])
    {
      FlightsTrail(s, step, t);
    }
    forall id | id in s'.data.rows
      ensures RowTrails(s', id)
    {
      if step.Publish? {
        PublishTrails(s, step.task, id);
      } else {
        RowsTrail(s, step, id);
      }
    }
  }

  lemma {:induction false} AfterTrails(s: System, steps: seq<Step>)
    requires Inv(s)
    ensures Inv(After(s, steps))
    decreases |steps|
  {
    if steps != [] {
      NextTrails(s, steps[0]);
      AfterTrails(Next(s, steps[0]), steps[1..]);
    }
  }

  lemma EmbedFlies(s: System, task: Task, id: Id, content: Content, space: Space, numbers: Option<seq<real>>)
    requires Inv(s) && task !in s.flights && s.snapshot.Some?
    ensures var answered := Next(Next(s, StartEmbed(task, id, content, space)), Answer(task, numbers));
            && answered.data == s.data && answered.pulls == s.pulls && answered.stamps == s.stamps && answered.makers == s.makers
            && task in answered.flights
            && answered.flights[task]
               == Flight(id, content, space, s.snapshot.value,
                         Some((|s.pulls| - 1, if numbers.Some? then Vector(content, numbers.value) else Tombstone(content))))
  {
  }

  /** An embed that nothing comes between stores what the weights made of the content, or parks it, under the
  revision that was known when it began; no other row changes. */
  lemma EmbedStores(s: System, task: Task, id: Id, content: Content, space: Space, numbers: Option<seq<real>>)
    requires Inv(s) && task !in s.flights && s.snapshot.Some?
    requires id in s.data.memories && s.data.memories[id] == content
    ensures var asked := Next(s, StartEmbed(task, id, content, space));
            var e := Next(Next(asked, Answer(task, numbers)), Publish(task));
            && e.data.memories == s.data.memories && e.data.rows.Keys == s.data.rows.Keys + {id}
            && e.data.rows[id].space == space && e.data.rows[id].revision == s.pulls[s.snapshot.value]
            && e.data.rows[id].contentHash == HashOf(content)
            && (numbers.Some? ==> e.data.rows[id].payload == Vector(content, numbers.value))
            && (numbers.None? ==> e.data.rows[id].payload == Tombstone(content))
            && (forall other | other in s.data.rows && other != id :: e.data.rows[other] == s.data.rows[other])
            && e.stamps == s.stamps[id := s.snapshot.value] && e.makers == s.makers[id := |s.pulls| - 1]
  {
    EmbedFlies(s, task, id, content, space, numbers);
  }

  /** In every interleaving, every stored row, parked ones included, carries the digest of weights that
  were pulled no later than the weights that computed it: a stamp can trail but never lead. */
  lemma StampsNeverLead(steps: seq<Step>, id: Id)
    requires id in After(EMPTY, steps).data.rows
    ensures var s := After(EMPTY, steps);
            && id in s.stamps && id in s.makers
            && s.stamps[id] <= s.makers[id] < |s.pulls|
            && s.data.rows[id].revision == s.pulls[s.stamps[id]]
  {
    AfterTrails(EMPTY, steps);
    assert RowTrails(After(EMPTY, steps), id);
  }

  // ---------- what a matching stamp is worth ----------

  function Current(s: System): Revision
    requires s.pulls != []
  {
    s.pulls[|s.pulls| - 1]
  }

  // A row that matches the present digest was computed by weights of that digest.
  ghost predicate RowTruthful(s: System, id: Id) {
    id in s.data.rows && s.pulls != [] && s.data.rows[id].revision == Current(s) ==>
      id in s.makers && s.makers[id] < |s.pulls| && s.pulls[s.makers[id]] == Current(s)
  }

  ghost predicate Truthful(s: System) {
    forall id | id in s.data.rows :: RowTruthful(s, id)
  }

  // The present digest was pulled before, and replaced, and has come back.
  ghost predicate WeightsReturned(pulls: seq<Revision>) {
    exists i, j :: 0 <= i < j < |pulls| - 1 && pulls[i] == pulls[|pulls| - 1] != pulls[j]
  }

  lemma NeverReplaced(pulls: seq<Revision>, i: nat, j: nat)
    requires !WeightsReturned(pulls) && i <= j < |pulls| && pulls[i] == pulls[|pulls| - 1]
    ensures pulls[j] == pulls[|pulls| - 1]
  {
  }

  lemma TruthfulWithoutReturn(steps: seq<Step>)
    requires !WeightsReturned(After(EMPTY, steps).pulls)
    ensures Truthful(After(EMPTY, steps))
  {
    var s := After(EMPTY, steps);
    forall id | id in s.data.rows
      ensures RowTruthful(s, id)
    {
      StampsNeverLead(steps, id);
      if s.data.rows[id].revision == Current(s) {
        NeverReplaced(s.pulls, s.stamps[id], s.makers[id]);
      }
    }
  }

  function Pulls(digests: seq<Revision>): seq<Step> {
    if digests == [] then [] else [Pull(digests[0])] + Pulls(digests[1..])
  }

  lemma {:induction false} AfterPulls(s: System, digests: seq<Revision>)
    ensures After(s, Pulls(digests)) == s.(pulls := s.pulls + digests)
    decreases |digests|
  {
    if digests == [] {
      assert s.pulls + digests == s.pulls;
    } else {
      var next := Next(s, Pull(digests[0]));
      AfterPulls(next, digests[1..]);
      AfterCons(s, Pull(digests[0]), Pulls(digests[1..]));
      assert (s.pulls + [digests[0]]) + digests[1..] == s.pulls + digests;
    }
  }

  lemma AfterCons(s: System, step: Step, rest: seq<Step>)
    ensures After(s, [step] + rest) == After(Next(s, step), rest)
  {
    assert ([step] + rest)[1..] == rest;
  }

  lemma {:induction false} AfterConcat(s: System, a: seq<Step>, b: seq<Step>)
    ensures After(s, a + b) == After(After(s, a), b)
    decreases |a|
  {
    if a == [] {
      assert a + b == b;
    } else {
      assert (a + b)[1..] == a[1..] + b;
      AfterConcat(Next(s, a[0]), a[1..], b);
    }
  }

  const SPACE := Space("p", "m", "f")

  function Begin(): seq<Step> {
    [StartProbe] + ([EndProbe(true)] + ([Add("m", "c")] + ([StartEmbed(0, "m", "c", SPACE)] + [])))
  }

  function Finish(): seq<Step> {
    [Answer(0, Some([]))] + ([Publish(0)] + [])
  }

  lemma AfterBegin(pulls: seq<Revision>)
    requires pulls != []
    ensures var s, i := EMPTY.(pulls := pulls), |pulls| - 1;
            After(s, Begin()) == System(pulls, None, Some(i), map[0 := Flight("m", "c", SPACE, i, None)],
                                        Data(map["m" := "c"], map[]), map[], map[])
  {
    var s := EMPTY.(pulls := pulls);
    var a := Next(s, StartProbe);
    var b := Next(a, EndProbe(true));
    var c := Next(b, Add("m", "c"));
    AfterCons(c, StartEmbed(0, "m", "c", SPACE), []);
    AfterCons(b, Add("m", "c"), [StartEmbed(0, "m", "c", SPACE)] + []);
    AfterCons(a, EndProbe(true), [Add("m", "c")] + ([StartEmbed(0, "m", "c", SPACE)] + []));
    AfterCons(s, StartProbe, [EndProbe(true)] + ([Add("m", "c")] + ([StartEmbed(0, "m", "c", SPACE)] + [])));
  }

  lemma AfterFinish(s: System, i: nat)
    requires i < |s.pulls| && s.flights == map[0 := Flight("m", "c", SPACE, i, None)]
    requires s.data == Data(map["m" := "c"], map[]) && s.stamps == map[] && s.makers == map[]
    ensures var t, j := After(s, Finish()), |s.pulls| - 1;
            && t.pulls == s.pulls && t.makers == map["m" := j]
            && t.data.rows == map["m" := Row(SPACE, s.pulls[i], HashOf("c"), Vector("c", []))]
  {
    var a := Next(s, Answer(0, Some([])));
    AfterCons(a, Publish(0), []);
    AfterCons(s, Answer(0, Some([])), [Publish(0)] + []);
  }

  lemma AfterReplaced(a: seq<Revision>, b: seq<Revision>)
    requires a != []
    ensures After(EMPTY, Pulls(a) + (Begin() + Pulls(b)))
         == System(a + b, None, Some(|a| - 1), map[0 := Flight("m", "c", SPACE, |a| - 1, None)],
                   Data(map["m" := "c"], map[]), map[], map[])
  {
    AfterConcat(EMPTY, Pulls(a), Begin() + Pulls(b));
    AfterPulls(EMPTY, a);
    assert [] + a == a;
    var s := EMPTY.(pulls := a);
    AfterConcat(s, Begin(), Pulls(b));
    AfterBegin(a);
    AfterPulls(After(s, Begin()), b);
  }

  lemma AfterReturned(s: System, i: nat, c: seq<Revision>)
    requires i < |s.pulls| && s.flights == map[0 := Flight("m", "c", SPACE, i, None)]
    requires s.data == Data(map["m" := "c"], map[]) && s.stamps == map[] && s.makers == map[]
    ensures var t, j := After(s, Finish() + Pulls(c)), |s.pulls| - 1;
            && t.pulls == s.pulls + c && t.makers == map["m" := j]
            && t.data.rows == map["m" := Row(SPACE, s.pulls[i], HashOf("c"), Vector("c", []))]
  {
    AfterConcat(s, Finish(), Pulls(c));
    AfterFinish(s, i);
    AfterPulls(After(s, Finish()), c);
  }

  lemma ThreeParts(pulls: seq<Revision>, i: nat, j: nat)
    requires i < j < |pulls|
    ensures pulls[..i + 1] + pulls[i + 1..j + 1] == pulls[..j + 1] && pulls[..j + 1] + pulls[j + 1..] == pulls
  {
  }

  lemma Untruthful(s: System, i: nat, j: nat)
    requires i < |s.pulls| && j < |s.pulls| && s.pulls[i] == Current(s) != s.pulls[j] && s.makers == map["m" := j]
    requires "m" in s.data.rows && s.data.rows["m"].revision == s.pulls[i]
    ensures !Truthful(s)
  {
    assert !RowTruthful(s, "m");
  }

  // Weights are verified, replaced while an embed is out, and pulled again after it was stored.
  lemma Comeback(a: seq<Revision>, b: seq<Revision>, c: seq<Revision>) returns (steps: seq<Step>)
    requires a != [] && b != [] && c != [] && a[|a| - 1] == c[|c| - 1] != b[|b| - 1]
    ensures After(EMPTY, steps).pulls == a + b + c && !Truthful(After(EMPTY, steps))
  {
    var first, rest := Pulls(a) + (Begin() + Pulls(b)), Finish() + Pulls(c);
    steps := first + rest;
    AfterConcat(EMPTY, first, rest);
    AfterReplaced(a, b);
    AfterReturned(After(EMPTY, first), |a| - 1, c);
    Untruthful(After(EMPTY, steps), |a| - 1, |a + b| - 1);
  }

  /** So what a match with the present digest says is exact: the row was computed by weights of that digest,
  in every run with this history of pulls, if and only if that digest has not been replaced and come back. */
  lemma StampsAreTruthfulUnlessWeightsReturn(pulls: seq<Revision>)
    ensures (forall steps | After(EMPTY, steps).pulls == pulls :: Truthful(After(EMPTY, steps)))
       <==> !WeightsReturned(pulls)
  {
    if WeightsReturned(pulls) {
      var i, j :| 0 <= i < j < |pulls| - 1 && pulls[i] == pulls[|pulls| - 1] != pulls[j];
      ThreeParts(pulls, i, j);
      var steps := Comeback(pulls[..i + 1], pulls[i + 1..j + 1], pulls[j + 1..]);
      assert After(EMPTY, steps).pulls == pulls;
    } else {
      forall steps | After(EMPTY, steps).pulls == pulls
        ensures Truthful(After(EMPTY, steps))
      {
        TruthfulWithoutReturn(steps);
      }
    }
  }
}
