/** collectReports as a protocol: one producer, N workers, a waiter and a collector, joined by two
    unbuffered channels and an error group that cancels on the first error. One state, one step
    per channel rendezvous, return or wait; any interleaving of the steps is a run. */
module ScanPipeline {

  type Image = string

  datatype Result = Result(ref: Image, missing: bool)

  /** What looking up the report of an image can give. */
  datatype Lookup = ReportFound | ReportNotFound | LookupError

  /** The producer offers the images still to be sent; `Leaving` has closed the request channel but
      its error, if any, is not yet recorded by the group. */
  datatype Producer = Offering(todo: set<Image>) | ProducerLeaving(failing: bool) | ProducerGone

  datatype Worker = Ready | Fetching(img: Image) | Delivering(res: Result) | Leaving(failing: bool) | Gone

  datatype Outcome = Reports(m: map<Image, Result>) | Error

  /** `failed` is the group's error, `cancelled` the shared context, `open` the result channel,
      `scans` the scan requests sent so far. */
  datatype State = State(
    producer: Producer,
    workers: seq<Worker>,
    cancelled: bool,
    failed: bool,
    open: bool,
    results: map<Image, Result>,
    scans: multiset<Image>,
    returned: bool,
    outcome: Outcome)

  datatype Action =
    | Offer(img: Image, w: nat)
    | ProducerEnds
    | ProducerStops
    | ProducerRecords
    | Fetch(w: nat, answer: Lookup)
    | Deliver(w: nat)
    | WorkerStops(w: nat)
    | WorkerEnds(w: nat)
    | WorkerRecords(w: nat)
    | CloseResults
    | Return
    | CancelFromOutside

  function Init(images: set<Image>, n: nat): State {
    State(Offering(images), seq(n, i => Ready), false, false, true, map[], multiset{}, false, Error)
  }

  predicate AllGone(s: State) {
    s.producer.ProducerGone? && forall i | 0 <= i < |s.workers| :: s.workers[i].Gone?
  }

  predicate Enabled(s: State, a: Action) {
    match a
    case Offer(img, w) => s.producer.Offering? && img in s.producer.todo && w < |s.workers| && s.workers[w].Ready?
    case ProducerEnds => s.producer == Offering({})
    case ProducerStops => s.producer.Offering? && s.producer.todo != {} && s.cancelled
    case ProducerRecords => s.producer.ProducerLeaving?
    case Fetch(w, answer) => w < |s.workers| && s.workers[w].Fetching?
    case Deliver(w) => w < |s.workers| && s.workers[w].Delivering? && s.open
    case WorkerStops(w) => w < |s.workers| && s.workers[w].Delivering? && s.cancelled
    case WorkerEnds(w) => w < |s.workers| && s.workers[w].Ready? && !s.producer.Offering?
    case WorkerRecords(w) => w < |s.workers| && s.workers[w].Leaving?
    case CloseResults => s.open && AllGone(s)
    case Return => !s.open && !s.returned
    case CancelFromOutside => !s.cancelled
  }

  /** The group notes the first error a goroutine returns with, and cancels the context. */
  function Record(s: State, failing: bool): State {
    if failing then s.(failed := true, cancelled := true) else s
  }

  function SetWorker(s: State, w: nat, worker: Worker): State
    requires w < |s.workers|
  {
    s.(workers := s.workers[w := worker])
  }

  function AfterOffer(s: State, img: Image, w: nat): State
    requires Enabled(s, Offer(img, w))
  {
    SetWorker(s, w, Fetching(img)).(producer := Offering(s.producer.todo - {img}))
  }

  function AfterFetch(s: State, w: nat, answer: Lookup): State
    requires Enabled(s, Fetch(w, answer))
  {
    var img := s.workers[w].img;
    match answer
    case LookupError => SetWorker(s, w, Leaving(true))
    case ReportFound => SetWorker(s, w, Delivering(Result(img, false)))
    case ReportNotFound => SetWorker(s, w, Delivering(Result(img, true))).(scans := s.scans + multiset{img})
  }

  function AfterDeliver(s: State, w: nat): State
    requires Enabled(s, Deliver(w))
  {
    var r := s.workers[w].res;
    SetWorker(s, w, Ready).(results := s.results[r.ref := r])
  }

  function Step(s: State, a: Action): State
    requires Enabled(s, a)
  {
    match a
    case Offer(img, w) => AfterOffer(s, img, w)
    case ProducerEnds => s.(producer := ProducerLeaving(false))
    case ProducerStops => s.(producer := ProducerLeaving(true))
    case ProducerRecords => Record(s, s.producer.failing).(producer := ProducerGone)
    case Fetch(w, answer) => AfterFetch(s, w, answer)
    case Deliver(w) => AfterDeliver(s, w)
    case WorkerStops(w) => SetWorker(s, w, Leaving(true))
    case WorkerEnds(w) => SetWorker(s, w, Leaving(false))
    case WorkerRecords(w) => SetWorker(Record(s, s.workers[w].failing), w, Gone)
    case CloseResults => s.(open := false, cancelled := true)
    case Return => s.(returned := true, outcome := if s.failed then Error else Reports(s.results))
    case CancelFromOutside => s.(cancelled := true)
  }

  /** The steps no worker takes part in. */
  predicate IsQuiet(a: Action) {
    a.ProducerEnds? || a.ProducerStops? || a.ProducerRecords? || a.CloseResults? || a.Return? || a.CancelFromOutside?
  }

  // ---------------------------------------------------------------- where an image can be

  function Todo(s: State): set<Image> {
    if s.producer.Offering? then s.producer.todo else {}
  }

  predicate Holds(worker: Worker, img: Image) {
    worker == Fetching(img) || (worker.Delivering? && worker.res.ref == img)
  }

  ghost predicate Held(s: State, img: Image) {
    exists w :: 0 <= w < |s.workers| && Holds(s.workers[w], img)
  }

  ghost predicate HeldMissing(s: State, img: Image) {
    exists w :: 0 <= w < |s.workers| && s.workers[w] == Delivering(Result(img, true))
  }

  /** Some goroutine has failed, whether or not the group has recorded it. */
  ghost predicate AnyFailure(s: State) {
    || s.failed
    || s.producer == ProducerLeaving(true)
    || exists w :: 0 <= w < |s.workers| && s.workers[w] == Leaving(true)
  }

  /** No image is in two places, so none is handed to a worker twice. */
  ghost predicate Exclusive(images: set<Image>, s: State) {
    && Todo(s) <= images && s.results.Keys <= images
    && (forall img | img in Todo(s) :: !Held(s, img) && img !in s.results)
    && (forall w, img | 0 <= w < |s.workers| && Holds(s.workers[w], img) :: img in images && img !in s.results)
    && (forall v, w, img | 0 <= v < |s.workers| && 0 <= w < |s.workers|
                           && Holds(s.workers[v], img) && Holds(s.workers[w], img) ::
          v == w)
    && (forall img <- s.results :: s.results[img].ref == img)
  }

  /** As long as nothing failed, no image is lost. */
  ghost predicate NothingLost(images: set<Image>, s: State) {
    !AnyFailure(s) ==> forall img <- images :: img in Todo(s) || Held(s, img) || img in s.results
  }

  /** At most one scan request per image, and none for an image not looked up yet. */
  ghost predicate ScannedOnce(s: State) {
    && (forall img :: s.scans[img] <= 1)
    && (forall img | img in s.scans ::
          img !in Todo(s) && forall w | 0 <= w < |s.workers| :: s.workers[w] != Fetching(img))
  }

  /** As long as nothing failed, exactly the images found missing have a scan request. */
  ghost predicate ScansMatch(s: State) {
    !AnyFailure(s) ==>
      forall img :: img in s.scans <==> HeldMissing(s, img) || (img in s.results && s.results[img].missing)
  }

  /** Who may be gone when: what makes the shutdown come to an end. */
  ghost predicate Orderly(s: State) {
    && (s.failed ==> s.cancelled)
    && (s.producer.Offering? ==> forall w | 0 <= w < |s.workers| ::
          s.workers[w] != Leaving(false) && (s.workers[w].Gone? ==> s.cancelled))
    && (!s.open ==> AllGone(s))
    && (s.returned ==> !s.open && s.outcome == if s.failed then Error else Reports(s.results))
  }

  ghost predicate Inv(images: set<Image>, n: nat, s: State) {
    && |s.workers| == n
    && Exclusive(images, s)
    && NothingLost(images, s)
    && ScannedOnce(s)
    && ScansMatch(s)
    && Orderly(s)
  }

  lemma InitInv(images: set<Image>, n: nat)
    ensures Inv(images, n, Init(images, n))
  {}

  /** A failure stays on record. */
  lemma FailureStays(s: State, a: Action)
    requires Enabled(s, a) && AnyFailure(s)
    ensures AnyFailure(Step(s, a))
  {
    var s' := Step(s, a);
    if !s.failed && s.producer != ProducerLeaving(true) {
      var v :| 0 <= v < |s.workers| && s.workers[v] == Leaving(true);
      LeavingStays(s, a, v);
      assert s'.failed || s'.workers[v] == Leaving(true);
    }
  }

  lemma LeavingStays(s: State, a: Action, v: nat)
    requires Enabled(s, a) && v < |s.workers| && s.workers[v] == Leaving(true)
    ensures Step(s, a).failed || (v < |Step(s, a).workers| && Step(s, a).workers[v] == Leaving(true))
  {
    match a
    case Offer(_, w) => assert w != v;
    case Fetch(w, _) => assert w != v;
    case Deliver(w) => assert w != v;
    case WorkerStops(w) => assert w != v;
    case WorkerEnds(w) => assert w != v;
    case WorkerRecords(w) => assert w == v ==> Record(s, true).failed;
    case _ =>
  }

  /** s' differs from s in worker w, and perhaps in what is not about workers. */
  ghost predicate Moves(s: State, s': State, w: nat) {
    w < |s.workers| == |s'.workers| && s'.workers == s.workers[w := s'.workers[w]]
  }

  lemma HeldElsewhere(s: State, s': State, w: nat, img: Image)
    requires Moves(s, s', w) && Held(s, img)
    ensures Held(s', img) || Holds(s.workers[w], img)
  {
    var v :| 0 <= v < |s.workers| && Holds(s.workers[v], img);
    if v != w {
      assert Holds(s'.workers[v], img);
    }
  }

  /** A step of worker w loses nothing if it keeps its image, or brings it to the results. */
  lemma MoveLosesNothing(images: set<Image>, s: State, s': State, w: nat)
    requires NothingLost(images, s) && !AnyFailure(s) && Moves(s, s', w)
    requires s.results.Keys <= s'.results.Keys
    requires forall img | Holds(s.workers[w], img) :: Holds(s'.workers[w], img) || img in s'.results
    requires forall img | img in Todo(s) :: img in Todo(s') || Holds(s'.workers[w], img)
    ensures NothingLost(images, s')
  {
    forall img | img in images
      ensures img in Todo(s') || Held(s', img) || img in s'.results
    {
      if Held(s, img) {
        HeldElsewhere(s, s', w, img);
      }
    }
  }

  lemma FetchLosesNothing(images: set<Image>, s: State, w: nat, answer: Lookup)
    requires NothingLost(images, s) && !AnyFailure(s) && Enabled(s, Fetch(w, answer))
    ensures NothingLost(images, AfterFetch(s, w, answer))
  {
    var s' := AfterFetch(s, w, answer);
    if answer == LookupError {
      assert s'.workers[w] == Leaving(true);
    } else {
      MoveLosesNothing(images, s, s', w);
    }
  }

  lemma WorkerStepLosesNothing(images: set<Image>, s: State, a: Action)
    requires NothingLost(images, s) && !AnyFailure(s) && Enabled(s, a)
    requires a.WorkerStops? || a.WorkerEnds? || a.WorkerRecords?
    ensures NothingLost(images, Step(s, a))
  {
    var s' := Step(s, a);
    if a.WorkerStops? {
      assert s'.workers[a.w] == Leaving(true);
    } else {
      MoveLosesNothing(images, s, s', a.w);
    }
  }

  lemma QuietStepLosesNothing(images: set<Image>, s: State, a: Action)
    requires NothingLost(images, s) && !AnyFailure(s) && Enabled(s, a) && IsQuiet(a)
    ensures NothingLost(images, Step(s, a))
  {
    assert Step(s, a).workers == s.workers && Step(s, a).results == s.results;
    forall img
      ensures Held(s, img) <==> Held(Step(s, a), img)
    {}
  }

  lemma StepLosesNothing(images: set<Image>, s: State, a: Action)
    requires NothingLost(images, s) && Enabled(s, a)
    ensures NothingLost(images, Step(s, a))
  {
    if AnyFailure(s) {
      FailureStays(s, a);
    } else {
      match a
      case Offer(img, w) => MoveLosesNothing(images, s, AfterOffer(s, img, w), w);
      case Deliver(w) => MoveLosesNothing(images, s, AfterDeliver(s, w), w);
      case Fetch(w, answer) => FetchLosesNothing(images, s, w, answer);
      case WorkerStops(_) => WorkerStepLosesNothing(images, s, a);
      case WorkerEnds(_) => WorkerStepLosesNothing(images, s, a);
      case WorkerRecords(_) => WorkerStepLosesNothing(images, s, a);
      case _ => QuietStepLosesNothing(images, s, a);
    }
  }

  lemma FetchScansOnce(images: set<Image>, s: State, w: nat, answer: Lookup)
    requires Exclusive(images, s) && ScannedOnce(s) && Enabled(s, Fetch(w, answer))
    ensures ScannedOnce(AfterFetch(s, w, answer))
  {
    var img, s' := s.workers[w].img, AfterFetch(s, w, answer);
    assert Holds(s.workers[w], img) && s.scans[img] == 0;
    forall v, x | 0 <= v < |s'.workers| && s'.workers[v] == Fetching(x)
      ensures s.workers[v] == Fetching(x) && x != img
    {
      assert v != w && Holds(s.workers[v], x);
    }
  }

  lemma OtherScansOnce(s: State, a: Action)
    requires ScannedOnce(s) && Enabled(s, a) && !a.Fetch?
    ensures ScannedOnce(Step(s, a))
  {}

  lemma StepScansOnce(images: set<Image>, s: State, a: Action)
    requires Exclusive(images, s) && ScannedOnce(s) && Enabled(s, a)
    ensures ScannedOnce(Step(s, a))
  {
    if a.Fetch? {
      FetchScansOnce(images, s, a.w, a.answer);
    } else {
      OtherScansOnce(s, a);
    }
  }

  lemma FetchScansMatch(images: set<Image>, s: State, w: nat, answer: Lookup)
    requires Exclusive(images, s) && ScansMatch(s) && Enabled(s, Fetch(w, answer)) && answer != LookupError
    requires !AnyFailure(s)
    ensures ScansMatch(AfterFetch(s, w, answer))
  {
    var s' := AfterFetch(s, w, answer);
    forall img
      ensures HeldMissing(s', img) <==> HeldMissing(s, img) || s'.workers[w] == Delivering(Result(img, true))
    {
      if v :| 0 <= v < |s.workers| && s.workers[v] == Delivering(Result(img, true)) {
        assert s'.workers[v] == s.workers[v];
      }
    }
  }

  lemma DeliverScansMatch(images: set<Image>, s: State, w: nat)
    requires Exclusive(images, s) && ScansMatch(s) && Enabled(s, Deliver(w)) && !AnyFailure(s)
    ensures ScansMatch(AfterDeliver(s, w))
  {
    var s' := AfterDeliver(s, w);
    forall img
      ensures HeldMissing(s, img) <==> HeldMissing(s', img) || s.workers[w] == Delivering(Result(img, true))
    {
      if v :| 0 <= v < |s.workers| && s.workers[v] == Delivering(Result(img, true)) {
        assert v == w || s'.workers[v] == s.workers[v];
      }
    }
  }

  lemma SameHeldMissing(s: State, s': State, w: nat)
    requires Moves(s, s', w) && !s.workers[w].Delivering? && !s'.workers[w].Delivering?
    ensures forall img :: HeldMissing(s, img) <==> HeldMissing(s', img)
  {
    forall img
      ensures HeldMissing(s, img) <==> HeldMissing(s', img)
    {
      if v :| 0 <= v < |s.workers| && s.workers[v] == Delivering(Result(img, true)) {
        assert s'.workers[v] == s.workers[v];
      }
      if v :| 0 <= v < |s'.workers| && s'.workers[v] == Delivering(Result(img, true)) {
        assert s.workers[v] == s'.workers[v];
      }
    }
  }

  lemma OfferScansMatch(s: State, img: Image, w: nat)
    requires ScansMatch(s) && Enabled(s, Offer(img, w)) && !AnyFailure(s)
    ensures ScansMatch(AfterOffer(s, img, w))
  {
    SameHeldMissing(s, AfterOffer(s, img, w), w);
  }

  lemma WorkerStepScansMatch(s: State, a: Action)
    requires ScansMatch(s) && Enabled(s, a) && !AnyFailure(s) && (a.WorkerStops? || a.WorkerEnds? || a.WorkerRecords?)
    ensures ScansMatch(Step(s, a))
  {
    if a.WorkerStops? {
      assert Step(s, a).workers[a.w] == Leaving(true);
    } else {
      SameHeldMissing(s, Step(s, a), a.w);
    }
  }

  lemma QuietStepScansMatch(s: State, a: Action)
    requires ScansMatch(s) && Enabled(s, a) && !AnyFailure(s) && IsQuiet(a)
    ensures ScansMatch(Step(s, a))
  {
    var s' := Step(s, a);
    assert s'.workers == s.workers && s'.results == s.results && s'.scans == s.scans;
    forall img
      ensures HeldMissing(s, img) <==> HeldMissing(s', img)
    {}
  }

  lemma StepScansMatch(images: set<Image>, s: State, a: Action)
    requires Exclusive(images, s) && ScansMatch(s) && Enabled(s, a)
    ensures ScansMatch(Step(s, a))
  {
    if AnyFailure(s) {
      FailureStays(s, a);
    } else {
      match a
      case Offer(img, w) => OfferScansMatch(s, img, w);
      case Deliver(w) => DeliverScansMatch(images, s, w);
      case Fetch(w, answer) =>
        if answer == LookupError {
          assert AfterFetch(s, w, answer).workers[w] == Leaving(true);
        } else {
          FetchScansMatch(images, s, w, answer);
        }
      case WorkerStops(_) => WorkerStepScansMatch(s, a);
      case WorkerEnds(_) => WorkerStepScansMatch(s, a);
      case WorkerRecords(_) => WorkerStepScansMatch(s, a);
      case _ => QuietStepScansMatch(s, a);
    }
  }

  lemma OfferIsExclusive(images: set<Image>, s: State, a: Action)
    requires Exclusive(images, s) && Enabled(s, a) && a.Offer?
    ensures Exclusive(images, Step(s, a))
  {}

  lemma DeliverIsExclusive(images: set<Image>, s: State, a: Action)
    requires Exclusive(images, s) && Enabled(s, a) && a.Deliver?
    ensures Exclusive(images, Step(s, a))
  {}

  lemma ShrinkingIsExclusive(images: set<Image>, s: State, s': State)
    requires Exclusive(images, s) && |s'.workers| == |s.workers| && s'.results == s.results && Todo(s') <= Todo(s)
    requires forall v, img | 0 <= v < |s.workers| && Holds(s'.workers[v], img) :: Holds(s.workers[v], img)
    ensures Exclusive(images, s')
  {}

  lemma MoveIsExclusive(images: set<Image>, s: State, s': State, w: nat)
    requires Exclusive(images, s) && s'.results == s.results && s'.producer == s.producer
    requires w < |s.workers| == |s'.workers| && s'.workers == s.workers[w := s'.workers[w]]
    requires forall img :: Holds(s'.workers[w], img) ==> Holds(s.workers[w], img)
    ensures Exclusive(images, s')
  {
    ShrinkingIsExclusive(images, s, s');
  }

  lemma FetchIsExclusive(images: set<Image>, s: State, w: nat, answer: Lookup)
    requires Exclusive(images, s) && Enabled(s, Fetch(w, answer))
    ensures Exclusive(images, AfterFetch(s, w, answer))
  {
    MoveIsExclusive(images, s, AfterFetch(s, w, answer), w);
  }

  lemma WorkerStepIsExclusive(images: set<Image>, s: State, a: Action)
    requires Exclusive(images, s) && Enabled(s, a) && (a.WorkerStops? || a.WorkerEnds? || a.WorkerRecords?)
    ensures Exclusive(images, Step(s, a))
  {
    MoveIsExclusive(images, s, Step(s, a), a.w);
  }

  lemma QuietStepIsExclusive(images: set<Image>, s: State, a: Action)
    requires Exclusive(images, s) && Enabled(s, a) && IsQuiet(a)
    ensures Exclusive(images, Step(s, a))
  {
    assert Step(s, a).workers == s.workers;
    ShrinkingIsExclusive(images, s, Step(s, a));
  }

  lemma StepExclusive(images: set<Image>, s: State, a: Action)
    requires Exclusive(images, s) && Enabled(s, a)
    ensures Exclusive(images, Step(s, a))
  {
    match a
    case Offer(_, _) => OfferIsExclusive(images, s, a);
    case Deliver(_) => DeliverIsExclusive(images, s, a);
    case Fetch(w, answer) => FetchIsExclusive(images, s, w, answer);
    case WorkerStops(_) => WorkerStepIsExclusive(images, s, a);
    case WorkerEnds(_) => WorkerStepIsExclusive(images, s, a);
    case WorkerRecords(_) => WorkerStepIsExclusive(images, s, a);
    case _ => QuietStepIsExclusive(images, s, a);
  }

  lemma MoveIsOrderly(s: State, s': State, w: nat)
    requires Orderly(s) && Moves(s, s', w) && !s.workers[w].Gone?
    requires s'.open == s.open && s'.returned == s.returned && (s'.producer.Offering? <==> s.producer.Offering?)
    requires (s'.failed ==> s'.cancelled) && (s.cancelled ==> s'.cancelled)
    requires s.producer.Offering? ==> s'.workers[w] != Leaving(false) && (s'.workers[w].Gone? ==> s'.cancelled)
    ensures Orderly(s')
  {
    assert s.open;
  }

  lemma WorkerStepIsOrderly(s: State, a: Action)
    requires Orderly(s) && Enabled(s, a) && (a.WorkerStops? || a.WorkerEnds? || a.WorkerRecords?)
    ensures Orderly(Step(s, a))
  {
    MoveIsOrderly(s, Step(s, a), a.w);
  }

  lemma QuietStepIsOrderly(s: State, a: Action)
    requires Orderly(s) && Enabled(s, a) && IsQuiet(a)
    ensures Orderly(Step(s, a))
  {
    assert Step(s, a).workers == s.workers;
  }

  lemma StepOrderly(s: State, a: Action)
    requires Orderly(s) && Enabled(s, a)
    ensures Orderly(Step(s, a))
  {
    match a
    case Offer(img, w) => MoveIsOrderly(s, AfterOffer(s, img, w), w);
    case Deliver(w) => MoveIsOrderly(s, AfterDeliver(s, w), w);
    case Fetch(w, answer) => MoveIsOrderly(s, AfterFetch(s, w, answer), w);
    case WorkerStops(_) => WorkerStepIsOrderly(s, a);
    case WorkerEnds(_) => WorkerStepIsOrderly(s, a);
    case WorkerRecords(_) => WorkerStepIsOrderly(s, a);
    case _ => QuietStepIsOrderly(s, a);
  }

  lemma StepInv(images: set<Image>, n: nat, s: State, a: Action)
    requires Inv(images, n, s) && Enabled(s, a)
    ensures Inv(images, n, Step(s, a))
  {
    StepExclusive(images, s, a);
    StepLosesNothing(images, s, a);
    StepScansOnce(images, s, a);
    StepScansMatch(images, s, a);
    StepOrderly(s, a);
  }

  // ---------------------------------------------------------------- progress

  /** With at least one worker, a state that has not returned can take a step of its own. */
  lemma Progress(images: set<Image>, n: nat, s: State)
    requires Inv(images, n, s) && n >= 1 && !s.returned
    ensures exists a :: Enabled(s, a) && !a.CancelFromOutside?
  {
    if w :| 0 <= w < n && s.workers[w].Fetching? {
      assert Enabled(s, Fetch(w, LookupError));
    } else if w :| 0 <= w < n && s.workers[w].Leaving? {
      assert Enabled(s, WorkerRecords(w));
    } else if w :| 0 <= w < n && s.workers[w].Delivering? {
      assert Enabled(s, Deliver(w));
    } else if s.producer.ProducerLeaving? {
      assert Enabled(s, ProducerRecords);
    } else if w :| 0 <= w < n && s.workers[w].Ready? {
      if s.producer.ProducerGone? {
        assert Enabled(s, WorkerEnds(w));
      } else if s.producer.todo == {} {
        assert Enabled(s, ProducerEnds);
      } else {
        var img :| img in s.producer.todo;
        assert Enabled(s, Offer(img, w));
      }
    } else if s.producer.Offering? {
      assert s.workers[0].Gone?;
      assert Enabled(s, if s.producer.todo == {} then ProducerEnds else ProducerStops);
    } else {
      assert Enabled(s, if s.open then CloseResults else Return);
    }
  }

  /** Without workers the producer of a non-empty image set is stuck until someone cancels. */
  lemma NoWorkersIsStuck(images: set<Image>)
    requires images != {}
    ensures forall a | Enabled(Init(images, 0), a) :: a.CancelFromOutside?
  {}

  function Weight(worker: Worker): nat {
    match worker
    case Ready => 2
    case Fetching(_) => 6
    case Delivering(_) => 4
    case Leaving(_) => 1
    case Gone => 0
  }

  function Weights(ws: seq<Worker>): nat {
    if ws == [] then 0 else Weight(ws[0]) + Weights(ws[1..])
  }

  lemma {:induction false} WeightsUpdate(ws: seq<Worker>, w: nat, worker: Worker)
    requires w < |ws|
    ensures Weights(ws[w := worker]) == Weights(ws) - Weight(ws[w]) + Weight(worker)
  {
    if w > 0 {
      WeightsUpdate(ws[1..], w - 1, worker);
      assert ws[w := worker][1..] == ws[1..][w - 1 := worker];
    }
  }

  lemma {:induction false} WeightsInit(n: nat)
    ensures Weights(seq(n, i => Ready)) == 2 * n
  {
    if n > 0 {
      WeightsInit(n - 1);
      assert seq(n, i => Ready)[1..] == seq(n - 1, i => Ready);
    }
  }

  /** An upper bound on the steps still to come. */
  function Variant(s: State): nat {
    5 * |Todo(s)| + Weights(s.workers)
    + (match s.producer case Offering(_) => 2 case ProducerLeaving(_) => 1 case ProducerGone => 0)
    + (if s.open then 1 else 0) + (if s.returned then 0 else 1) + (if s.cancelled then 0 else 1)
  }

  lemma OfferDrops(s: State, img: Image, w: nat)
    requires Enabled(s, Offer(img, w))
    ensures Variant(AfterOffer(s, img, w)) < Variant(s)
  {
    WeightsUpdate(s.workers, w, Fetching(img));
    assert |s.producer.todo - {img}| == |s.producer.todo| - 1;
  }

  lemma MoveDrops(s: State, s': State, w: nat)
    requires w < |s.workers| == |s'.workers| && s'.workers == s.workers[w := s'.workers[w]]
    requires Weight(s'.workers[w]) < Weight(s.workers[w])
    requires s'.producer == s.producer && s'.open == s.open && s'.returned == s.returned
      && (s.cancelled ==> s'.cancelled)
    ensures Variant(s') < Variant(s)
  {
    WeightsUpdate(s.workers, w, s'.workers[w]);
  }

  lemma FetchDrops(s: State, w: nat, answer: Lookup)
    requires Enabled(s, Fetch(w, answer))
    ensures Variant(AfterFetch(s, w, answer)) < Variant(s)
  {
    MoveDrops(s, AfterFetch(s, w, answer), w);
  }

  lemma DeliverDrops(s: State, w: nat)
    requires Enabled(s, Deliver(w))
    ensures Variant(AfterDeliver(s, w)) < Variant(s)
  {
    MoveDrops(s, AfterDeliver(s, w), w);
  }

  lemma WorkerStepDrops(s: State, a: Action)
    requires Enabled(s, a) && (a.WorkerStops? || a.WorkerEnds? || a.WorkerRecords?)
    ensures Variant(Step(s, a)) < Variant(s)
  {
    MoveDrops(s, Step(s, a), a.w);
  }

  lemma QuietStepDrops(s: State, a: Action)
    requires Enabled(s, a) && IsQuiet(a)
    ensures Variant(Step(s, a)) < Variant(s)
  {
    assert Step(s, a).workers == s.workers;
  }

  lemma VariantDrops(s: State, a: Action)
    requires Enabled(s, a)
    ensures Variant(Step(s, a)) < Variant(s)
  {
    match a
    case Offer(img, w) => OfferDrops(s, img, w);
    case Fetch(w, answer) => FetchDrops(s, w, answer);
    case Deliver(w) => DeliverDrops(s, w);
    case WorkerStops(_) => WorkerStepDrops(s, a);
    case WorkerEnds(_) => WorkerStepDrops(s, a);
    case WorkerRecords(_) => WorkerStepDrops(s, a);
    case _ => QuietStepDrops(s, a);
  }

  // ---------------------------------------------------------------- whole runs

  /** s is what the steps lead to from the initial state. */
  ghost predicate Reaches(images: set<Image>, n: nat, steps: seq<Action>, s: State) {
    if steps == [] then s == Init(images, n)
    else
      var last := steps[|steps| - 1];
      exists before ::
        Reaches(images, n, steps[..|steps| - 1], before) && Enabled(before, last) && s == Step(before, last)
  }

  lemma {:induction false} ReachableInv(images: set<Image>, n: nat, steps: seq<Action>, s: State)
    requires Reaches(images, n, steps, s)
    ensures Inv(images, n, s)
    ensures |steps| + Variant(s) <= 5 * |images| + 2 * n + 5
  {
    if steps == [] {
      InitInv(images, n);
      WeightsInit(n);
    } else {
      var init, last := steps[..|steps| - 1], steps[|steps| - 1];
      var before :| Reaches(images, n, init, before) && Enabled(before, last) && s == Step(before, last);
      ReachableInv(images, n, init, before);
      StepInv(images, n, before, last);
      VariantDrops(before, last);
    }
  }

  /** Every run of at least one worker is finite and can only stop by returning: it takes at most
      5|images| + 2N + 5 steps, and while it has not returned a further step is enabled. */
  lemma EveryRunReturns(images: set<Image>, n: nat, steps: seq<Action>, s: State)
    requires Reaches(images, n, steps, s) && n >= 1
    ensures |steps| <= 5 * |images| + 2 * n + 5
    ensures !s.returned ==> exists a :: Enabled(s, a) && !a.CancelFromOutside?
  {
    ReachableInv(images, n, steps, s);
    if !s.returned {
      Progress(images, n, s);
    }
  }

  // ---------------------------------------------------------------- what the lookups answered

  type Answers = iset<(Image, Lookup)>

  /** The images whose reports were looked up in the run, each with the answer that the worker holding
      it got. */
  ghost function AnswersOf(images: set<Image>, n: nat, steps: seq<Action>): Answers {
    if steps == [] then iset{}
    else
      var init, last := steps[..|steps| - 1], steps[|steps| - 1];
      AnswersOf(images, n, init) + iset img | IsLookUp(images, n, init, last, img) :: (img, last.answer)
  }

  /** After these steps the next one is the answer to a worker that looks up img. */
  ghost predicate IsLookUp(images: set<Image>, n: nat, steps: seq<Action>, a: Action, img: Image) {
    a.Fetch? && exists s :: Reaches(images, n, steps, s) && a.w < |s.workers| && s.workers[a.w] == Fetching(img)
  }

  lemma {:induction false} RunIsDetermined(images: set<Image>, n: nat, steps: seq<Action>, s: State, s': State)
    requires Reaches(images, n, steps, s) && Reaches(images, n, steps, s')
    ensures s == s'
  {
    if steps != [] {
      var init, last := steps[..|steps| - 1], steps[|steps| - 1];
      var x :| Reaches(images, n, init, x) && Enabled(x, last) && s == Step(x, last);
      var y :| Reaches(images, n, init, y) && Enabled(y, last) && s' == Step(y, last);
      RunIsDetermined(images, n, init, x, y);
    }
  }

  lemma LooksUpIff(images: set<Image>, n: nat, steps: seq<Action>, s: State, a: Action, img: Image)
    requires Reaches(images, n, steps, s) && Enabled(s, a)
    ensures IsLookUp(images, n, steps, a, img) <==> a.Fetch? && s.workers[a.w] == Fetching(img)
  {
    if a.Fetch? {
      if x :| Reaches(images, n, steps, x) && a.w < |x.workers| && x.workers[a.w] == Fetching(img) {
        RunIsDetermined(images, n, steps, x, s);
      }
    }
  }

  /** A step adds at most one answer. */
  lemma AnswersNext(images: set<Image>, n: nat, init: seq<Action>, s: State, a: Action)
    requires Reaches(images, n, init, s) && Enabled(s, a)
    ensures AnswersOf(images, n, init + [a]) == AnswersOf(images, n, init) + NewAnswer(s, a)
  {
    assert (init + [a])[..|init|] == init;
    forall img
      ensures IsLookUp(images, n, init, a, img) <==> a.Fetch? && s.workers[a.w] == Fetching(img)
    {
      LooksUpIff(images, n, init, s, a, img);
    }
  }

  function NewAnswer(s: State, a: Action): Answers
    requires Enabled(s, a)
  {
    if a.Fetch? then iset{(s.workers[a.w].img, a.answer)} else iset{}
  }

  ghost predicate LookedUp(s: State, img: Image) {
    exists w :: 0 <= w < |s.workers| && s.workers[w] == Fetching(img)
  }

  /** An image that was looked up is not looked up again. */
  ghost predicate AskedOnce(answers: Answers, s: State) {
    forall t <- answers :: t.0 !in Todo(s) && !LookedUp(s, t.0)
  }

  /** The images answered "not found" are those scanned; no image has both answers. */
  ghost predicate ScansFollow(answers: Answers, s: State) {
    forall img :: (img in s.scans <==> (img, ReportNotFound) in answers)
                  && (img in s.scans ==> (img, ReportFound) !in answers)
  }

  /** What is delivered and collected is what was answered. */
  ghost predicate ResultsFollow(answers: Answers, s: State) {
    && (forall w | 0 <= w < |s.workers| && s.workers[w].Delivering? :: IsAnswer(answers, s.workers[w].res))
    && (forall img <- s.results :: IsAnswer(answers, s.results[img]))
  }

  ghost predicate IsAnswer(answers: Answers, r: Result) {
    (r.ref, if r.missing then ReportNotFound else ReportFound) in answers
  }

  ghost predicate ErrorsFail(answers: Answers, s: State) {
    (exists img :: (img, LookupError) in answers) ==> AnyFailure(s)
  }

  ghost predicate AnswersKept(answers: Answers, s: State) {
    AskedOnce(answers, s) && ScansFollow(answers, s) && ResultsFollow(answers, s) && ErrorsFail(answers, s)
  }

  lemma FetchAsksOnce(images: set<Image>, answers: Answers, s: State, w: nat, answer: Lookup)
    requires Exclusive(images, s) && Enabled(s, Fetch(w, answer)) && AskedOnce(answers, s)
    ensures AskedOnce(answers + iset{(s.workers[w].img, answer)}, AfterFetch(s, w, answer))
    ensures forall other :: (s.workers[w].img, other) !in answers
  {
    var img, s' := s.workers[w].img, AfterFetch(s, w, answer);
    assert Holds(s.workers[w], img) && LookedUp(s, img);
    forall x | LookedUp(s', x)
      ensures x != img && LookedUp(s, x)
    {
      var v :| 0 <= v < |s.workers| && s'.workers[v] == Fetching(x);
      assert v != w && s.workers[v] == Fetching(x) && Holds(s.workers[v], x);
    }
  }

  lemma FetchResultsFollow(answers: Answers, s: State, w: nat, answer: Lookup)
    requires Enabled(s, Fetch(w, answer)) && ResultsFollow(answers, s)
    ensures ResultsFollow(answers + iset{(s.workers[w].img, answer)}, AfterFetch(s, w, answer))
  {
    var s' := AfterFetch(s, w, answer);
    forall v | 0 <= v < |s'.workers| && s'.workers[v].Delivering?
      ensures IsAnswer(answers + iset{(s.workers[w].img, answer)}, s'.workers[v].res)
    {
      assert v != w ==> s'.workers[v] == s.workers[v];
    }
  }

  lemma FetchErrorsFail(answers: Answers, s: State, w: nat, answer: Lookup)
    requires Enabled(s, Fetch(w, answer)) && ErrorsFail(answers, s)
    ensures ErrorsFail(answers + iset{(s.workers[w].img, answer)}, AfterFetch(s, w, answer))
  {
    if AnyFailure(s) {
      FailureStays(s, Fetch(w, answer));
    } else if answer == LookupError {
      assert AfterFetch(s, w, answer).workers[w] == Leaving(true);
    }
  }

  lemma FetchScansFollow(answers: Answers, s: State, w: nat, answer: Lookup)
    requires Enabled(s, Fetch(w, answer)) && ScansFollow(answers, s)
    requires forall other :: (s.workers[w].img, other) !in answers
    ensures ScansFollow(answers + iset{(s.workers[w].img, answer)}, AfterFetch(s, w, answer))
  {}

  /** A step of worker w that answers nothing; a result it brings along was there before. */
  lemma MoveKeepsAnswers(answers: Answers, s: State, s': State, w: nat)
    requires AskedOnce(answers, s) && ResultsFollow(answers, s) && Moves(s, s', w)
    requires Todo(s') <= Todo(s) && !s'.workers[w].Delivering?
    requires s'.workers[w].Fetching? ==> s'.workers[w].img in Todo(s)
    requires forall img <- s'.results ::
      (img in s.results && s'.results[img] == s.results[img]) || s.workers[w] == Delivering(s'.results[img])
    ensures AskedOnce(answers, s') && ResultsFollow(answers, s')
  {
    forall img | LookedUp(s', img)
      ensures img in Todo(s) || LookedUp(s, img)
    {
      var v :| 0 <= v < |s'.workers| && s'.workers[v] == Fetching(img);
      assert v != w ==> s.workers[v] == Fetching(img);
    }
    forall v | 0 <= v < |s'.workers| && s'.workers[v].Delivering?
      ensures IsAnswer(answers, s'.workers[v].res)
    {
      assert s.workers[v] == s'.workers[v];
    }
  }

  lemma WorkerStepKeepsAnswers(answers: Answers, s: State, a: Action)
    requires AskedOnce(answers, s) && ResultsFollow(answers, s) && Enabled(s, a)
    requires a.WorkerStops? || a.WorkerEnds? || a.WorkerRecords?
    ensures AskedOnce(answers, Step(s, a)) && ResultsFollow(answers, Step(s, a))
  {
    MoveKeepsAnswers(answers, s, Step(s, a), a.w);
  }

  lemma QuietKeepsAnswers(answers: Answers, s: State, a: Action)
    requires AskedOnce(answers, s) && ResultsFollow(answers, s) && Enabled(s, a) && IsQuiet(a)
    ensures AskedOnce(answers, Step(s, a)) && ResultsFollow(answers, Step(s, a))
  {
    var s' := Step(s, a);
    assert s'.workers == s.workers && s'.results == s.results && Todo(s') <= Todo(s);
    forall img
      ensures LookedUp(s', img) <==> LookedUp(s, img)
    {}
  }

  lemma OtherMovesKeepAnswers(answers: Answers, s: State, a: Action)
    requires Enabled(s, a) && !a.Fetch? && AskedOnce(answers, s) && ResultsFollow(answers, s)
    ensures AskedOnce(answers, Step(s, a)) && ResultsFollow(answers, Step(s, a))
  {
    match a
    case Offer(img, w) => MoveKeepsAnswers(answers, s, AfterOffer(s, img, w), w);
    case Deliver(w) => MoveKeepsAnswers(answers, s, AfterDeliver(s, w), w);
    case WorkerStops(_) => WorkerStepKeepsAnswers(answers, s, a);
    case WorkerEnds(_) => WorkerStepKeepsAnswers(answers, s, a);
    case WorkerRecords(_) => WorkerStepKeepsAnswers(answers, s, a);
    case _ => QuietKeepsAnswers(answers, s, a);
  }

  lemma OtherScansStay(s: State, a: Action)
    requires Enabled(s, a) && !a.Fetch?
    ensures Step(s, a).scans == s.scans
  {}

  lemma StepKeepsAnswers(images: set<Image>, answers: Answers, s: State, a: Action)
    requires Exclusive(images, s) && Enabled(s, a) && AnswersKept(answers, s)
    ensures AnswersKept(answers + NewAnswer(s, a), Step(s, a))
  {
    if a.Fetch? {
      FetchAsksOnce(images, answers, s, a.w, a.answer);
      FetchResultsFollow(answers, s, a.w, a.answer);
      FetchScansFollow(answers, s, a.w, a.answer);
      FetchErrorsFail(answers, s, a.w, a.answer);
    } else {
      OtherMovesKeepAnswers(answers, s, a);
      OtherScansStay(s, a);
      if AnyFailure(s) {
        FailureStays(s, a);
      }
      assert answers + NewAnswer(s, a) == answers;
    }
  }

  lemma {:induction false} RunKeepsAnswers(images: set<Image>, n: nat, steps: seq<Action>, s: State)
    requires Reaches(images, n, steps, s)
    ensures AnswersKept(AnswersOf(images, n, steps), s)
  {
    if steps != [] {
      var init, last := steps[..|steps| - 1], steps[|steps| - 1];
      var before :| Reaches(images, n, init, before) && Enabled(before, last) && s == Step(before, last);
      assert steps == init + [last];
      ReachableInv(images, n, init, before);
      RunKeepsAnswers(images, n, init, before);
      AnswersNext(images, n, init, before, last);
      StepKeepsAnswers(images, AnswersOf(images, n, init), before, last);
    }
  }

  // ---------------------------------------------------------------- what makes a run fail

  predicate IsTrouble(a: Action) {
    a.CancelFromOutside? || (a.Fetch? && a.answer == LookupError)
  }

  /** Nothing has failed, and nothing is cancelled before the results are closed. */
  ghost predicate Calm(s: State) {
    !AnyFailure(s) && (s.cancelled ==> !s.open && AllGone(s))
  }

  lemma CalmStays(s: State, a: Action)
    requires Orderly(s) && Calm(s) && Enabled(s, a) && !IsTrouble(a)
    ensures Calm(Step(s, a))
  {
    forall v | 0 <= v < |Step(s, a).workers|
      ensures Step(s, a).workers[v] != Leaving(true)
    {
      CalmWorker(s, a, v);
    }
  }

  lemma CalmWorker(s: State, a: Action, v: nat)
    requires Orderly(s) && Calm(s) && Enabled(s, a) && !IsTrouble(a) && v < |Step(s, a).workers|
    ensures Step(s, a).workers[v] != Leaving(true)
  {}

  lemma {:induction false} RunWithoutTrouble(images: set<Image>, n: nat, steps: seq<Action>, s: State)
    requires Reaches(images, n, steps, s) && forall a <- steps :: !IsTrouble(a)
    ensures Calm(s)
  {
    if steps != [] {
      var init, last := steps[..|steps| - 1], steps[|steps| - 1];
      assert steps == init + [last];
      var before :| Reaches(images, n, init, before) && Enabled(before, last) && s == Step(before, last);
      RunWithoutTrouble(images, n, init, before);
      ReachableInv(images, n, init, before);
      CalmStays(before, last);
    }
  }

  /** At every point of every run, each image got at most one scan request; a run that returns
      without an error has a result for every image and for nothing else, each filed under its own
      name. An image is reported missing exactly when its lookup answered that there is no report, and
      exactly then one scan request was sent. A run in which a lookup failed never returns reports, and one
      returns an error only if a lookup failed or it was cancelled from outside. */
  lemma CollectReportsIsCorrect(images: set<Image>, n: nat, steps: seq<Action>, s: State)
    requires Reaches(images, n, steps, s)
    ensures forall img :: s.scans[img] <= 1
    ensures s.returned && s.outcome.Reports? ==>
      && s.outcome.m.Keys == images
      && (forall img <- images :: s.outcome.m[img].ref == img)
      && (forall img <- images :: s.outcome.m[img].missing <==> (img, ReportNotFound) in AnswersOf(images, n, steps))
      && (forall img <- images :: !s.outcome.m[img].missing <==> (img, ReportFound) in AnswersOf(images, n, steps))
      && (forall img :: (img, LookupError) !in AnswersOf(images, n, steps))
      && (forall img :: s.scans[img] == if img in images && s.outcome.m[img].missing then 1 else 0)
    ensures s.returned && s.outcome.Error? ==> exists a :: a in steps && IsTrouble(a)
  {
    ReachableInv(images, n, steps, s);
    RunKeepsAnswers(images, n, steps, s);
    if forall a <- steps :: !IsTrouble(a) {
      RunWithoutTrouble(images, n, steps, s);
    }
    if s.returned && !s.failed {
      NothingIsUnderWay(images, n, s);
      ResultsAreAnswers(AnswersOf(images, n, steps), s);
    }
  }

  /** When all are gone without a failure, everything is collected. */
  lemma NothingIsUnderWay(images: set<Image>, n: nat, s: State)
    requires Inv(images, n, s) && s.returned && !s.failed
    ensures !AnyFailure(s) && s.outcome == Reports(s.results) && s.results.Keys == images
    ensures forall img <- images :: s.results[img].ref == img
    ensures forall img :: s.scans[img] == if img in images && s.results[img].missing then 1 else 0
  {
    assert AllGone(s) && !AnyFailure(s);
    assert forall img :: !Held(s, img) && !HeldMissing(s, img);
  }

  lemma ResultsAreAnswers(answers: Answers, s: State)
    requires AnswersKept(answers, s) && !AnyFailure(s)
    requires forall img <- s.results :: s.results[img].ref == img
    requires forall img :: img in s.scans <==> img in s.results && s.results[img].missing
    ensures forall img <- s.results :: s.results[img].missing <==> (img, ReportNotFound) in answers
    ensures forall img <- s.results :: !s.results[img].missing <==> (img, ReportFound) in answers
    ensures forall img :: (img, LookupError) !in answers
  {
    forall img | img in s.results
      ensures IsAnswer(answers, s.results[img])
    {}
  }

  /** The collector never waits for an image twice: two different workers never hold the same
      image, and an image in hand is neither waiting nor collected. */
  lemma OneWorkerPerImage(images: set<Image>, n: nat, steps: seq<Action>, s: State, v: nat, w: nat, img: Image)
    requires Reaches(images, n, steps, s)
    requires v < |s.workers| && w < |s.workers| && Holds(s.workers[v], img) && Holds(s.workers[w], img)
    ensures v == w && img !in Todo(s) && img !in s.results
  {
    ReachableInv(images, n, steps, s);
    assert Held(s, img);
  }
}
