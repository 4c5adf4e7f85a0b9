/** How a finalizer holds an object although its one worker reads a cache that lags behind the
    API server. Of each version only the marks matter: being deleted, carrying the finalizer. */
module FinalizerHold {
  import opened Results

  datatype Mark = Mark(deleting: bool, finalizer: bool)

  /** What the worker is doing with respect to the finalizer. */
  datatype Phase = Idle | Adding | Working | Finalizing

  datatype Change = Creation | Deletion | CatchUp

  function Last<T>(versions: seq<Option<T>>): Option<T> {
    if versions == [] then None else versions[|versions| - 1]
  }

  function View<T>(versions: seq<Option<T>>): Option<T> {
    if versions == [] then None else versions[0]
  }

  /** The API server drops a deleted object once nothing holds it. */
  function Settle(o: Mark): Option<Mark> {
    if o.deleting && !o.finalizer then None else Some(o)
  }

  /** The versions after a patch of the finalizer list; patching a missing object fails. */
  function Patched(versions: seq<Option<Mark>>, finalizer: bool, c: CallResult): seq<Option<Mark>> {
    if c.Failed? || Last(versions).None? then versions
    else versions + [Settle(Last(versions).value.(finalizer := finalizer))]
  }

  function Changed(versions: seq<Option<Mark>>, a: Change): seq<Option<Mark>> {
    var o := Last(versions);
    match a
    case Creation => if o.None? then versions + [Some(Mark(false, false))] else versions
    case Deletion => if o.Some? then versions + [Settle(o.value.(deleting := true))] else versions
    case CatchUp => if |versions| > 1 then versions[1..] else versions
  }

  /** What an injector does with the object that the cache shows. */
  function Dispatch(view: Option<Mark>): Phase {
    if view.None? then Idle
    else if view.value.deleting then (if view.value.finalizer then Finalizing else Idle)
    else if view.value.finalizer then Working
    else Adding
  }

  predicate Carries(v: Option<Mark>) {
    v.Some? && v.value.finalizer
  }

  predicate Dying(v: Option<Mark>) {
    Carries(v) && v.value.deleting
  }

  /** No unseen version releases the object or revokes its deletion. */
  predicate Holding(vs: seq<Option<Mark>>) {
    forall i, j | 0 <= i < j < |vs| :: (Carries(vs[i]) ==> Carries(vs[j])) && (Dying(vs[i]) ==> Dying(vs[j]))
  }

  /** Every version that carries the finalizer is being deleted, and no version takes it up again. */
  predicate Releasing(vs: seq<Option<Mark>>) {
    && (forall i | 0 <= i < |vs| :: Carries(vs[i]) ==> Dying(vs[i]))
    && (forall i, j | 0 <= i < j < |vs| :: Carries(vs[j]) ==> Carries(vs[i]))
  }

  predicate WorkerInv(vs: seq<Option<Mark>>, phase: Phase) {
    && vs != [] && (Holding(vs) || Releasing(vs))
    && (phase.Adding? ==> Holding(vs))
    && (phase.Working? ==> Carries(Last(vs)))
    && (phase.Finalizing? ==> Releasing(vs))
  }

  lemma ChangesKeepWorkerInv(vs: seq<Option<Mark>>, phase: Phase, a: Change)
    requires WorkerInv(vs, phase)
    ensures WorkerInv(Changed(vs, a), phase) && (Carries(Last(Changed(vs, a))) <==> Carries(Last(vs)))
  {
  }

  lemma PatchKeepsWorkerInv(vs: seq<Option<Mark>>, c: CallResult)
    requires vs != []
    ensures Holding(vs) ==> Holding(Patched(vs, true, c))
    ensures Releasing(vs) ==> Releasing(Patched(vs, false, c))
    ensures Last(vs).Some? && !c.Failed? ==> Carries(Last(Patched(vs, true, c)))
    ensures Carries(Last(vs)) ==> Carries(Last(Patched(vs, true, c)))
    ensures Patched(vs, true, c) != [] && Patched(vs, false, c) != []
  {
  }

  /** The lag of the cache never misleads the worker: a cached object with a finalizer that is
      not being deleted still has it, and a finalizer run never meets a revived object. */
  lemma DispatchKeepsWorkerInv(vs: seq<Option<Mark>>)
    requires WorkerInv(vs, Idle)
    ensures WorkerInv(vs, Dispatch(View(vs)))
  {
    var phase := Dispatch(View(vs));
    if phase.Working? {
      assert Carries(vs[0]) && !Dying(vs[0]);
    } else if phase.Finalizing? {
      assert Dying(vs[0]);
    } else if phase.Adding? {
      assert !Carries(vs[0]);
    }
  }

  /** Writing a version that looks like the last one changes nothing. */
  lemma Stutter(vs: seq<Option<Mark>>, phase: Phase)
    requires WorkerInv(vs, phase)
    ensures WorkerInv(vs + [Last(vs)], phase)
  {
  }

  /** The phases in which the worker may stop, go on, or finish. */
  lemma PhaseMoves(vs: seq<Option<Mark>>)
    ensures WorkerInv(vs, Working) ==> WorkerInv(vs, Idle)
    ensures WorkerInv(vs, Finalizing) ==> WorkerInv(vs, Idle)
    ensures WorkerInv(vs, Adding) ==> WorkerInv(vs, Idle)
    ensures WorkerInv(vs, Idle) && Carries(Last(vs)) ==> WorkerInv(vs, Working)
    ensures WorkerInv(vs, Working) ==> Carries(Last(vs)) && vs != []
  {
  }

  lemma FinalizedIsDying(vs: seq<Option<Mark>>)
    requires WorkerInv(vs, Finalizing) && Carries(Last(vs))
    ensures Dying(Last(vs))
  {
  }

  // ----- the marks of richer objects -----

  function MarkOne<T>(v: Option<T>, mark: T -> Mark): Option<Mark> {
    match v
    case None => None
    case Some(o) => Some(mark(o))
  }

  function Marks<T>(vs: seq<Option<T>>, mark: T -> Mark): seq<Option<Mark>> {
    seq(|vs|, i requires 0 <= i < |vs| => MarkOne(vs[i], mark))
  }

  lemma MarksAppend<T>(vs: seq<Option<T>>, v: Option<T>, mark: T -> Mark)
    ensures Marks(vs + [v], mark) == Marks(vs, mark) + [MarkOne(v, mark)]
  {
  }

  lemma MarksTail<T>(vs: seq<Option<T>>, mark: T -> Mark)
    requires vs != []
    ensures Marks(vs[1..], mark) == Marks(vs, mark)[1..]
  {
  }

  lemma MarksEnds<T>(vs: seq<Option<T>>, mark: T -> Mark)
    ensures Last(Marks(vs, mark)) == MarkOne(Last(vs), mark) && View(Marks(vs, mark)) == MarkOne(View(vs), mark)
    ensures |Marks(vs, mark)| == |vs|
  {
  }

  /** The API server keeps no deleted object that nothing holds. */
  predicate AllSettled<T(==)>(vs: seq<Option<T>>, mark: T -> Mark) {
    forall v <- vs :: v.Some? ==> mark(v.value).finalizer || !mark(v.value).deleting
  }
}
