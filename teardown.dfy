/**
 * What `_cleanup_failed_workspace` does: four best-effort collection
 * deletions, the deletion of the namespace, then a wait of at most thirty
 * successful polls for the namespace to disappear. Every error is caught.
 */
module Teardown {
  import opened Wrappers
  import opened Platform

  /** The collections deleted before the namespace, in order. */
  const SweptKinds: seq<Kind> := [Deployment, Service, ConfigMap, PersistentVolumeClaim]

  /** The number of successful polls after which the wait gives up. */
  const MaxRetries: nat := 30

  /** The objects after deleting `kinds` one by one, and the kinds whose deletion failed (each logged as a warning). */
  function Sweep(objects: map<Ref, Content>, namespace: string, kinds: seq<Kind>,
                 refusedCollections: set<(Kind, string)>): (map<Ref, Content>, seq<Kind>)
  {
    if kinds == [] then (objects, [])
    else
      var ok := (kinds[0], namespace) !in refusedCollections;
      var next := if ok then Without(objects, kinds[0], namespace) else objects;
      var (rest, warnings) := Sweep(next, namespace, kinds[1..], refusedCollections);
      (rest, (if ok then [] else [kinds[0]]) + warnings)
  }

  /** How the wait ends. */
  datatype PollEnd =
    | NamespaceGone      // a read raised a 404
    | RetriesExhausted   // the allowed number of polls all succeeded
    | ReadRaised         // a read raised something other than an `ApiException`

  /**
   * The wait over the coming answers with `retries` successful polls left:
   * how it ends and how many answers it consumed, or `None` when the answers
   * run out first. An `ApiException` other than a 404 is caught, neither ends
   * the wait nor uses up a retry, and the next read follows.
   */
  function Poll(answers: seq<ReadAnswer>, retries: nat): Option<(PollEnd, nat)>
    decreases |answers|
  {
    if retries == 0 then Some((RetriesExhausted, 0))
    else if answers == [] then None
    else
      match answers[0]
      case Present =>
        OneMore(Poll(answers[1..], retries - 1))
      case ApiError(status) =>
        if status == 404 then Some((NamespaceGone, 1))
        else
          OneMore(Poll(answers[1..], retries))
      case OtherError => Some((ReadRaised, 1))
  }

  /** The same end, one read later. */
  function OneMore(rest: Option<(PollEnd, nat)>): Option<(PollEnd, nat)> {
    if rest.None? then None else Some((rest.value.0, rest.value.1 + 1))
  }

  /** What the method logs at the end. */
  datatype CleanupResult =
    | Cleaned         // "Successfully cleaned up workspace"
    | TimedOut        // "Timeout waiting for namespace ... to be deleted"
    | CleanupFailed   // "Error during workspace cleanup": `delete_namespace` or a read raised

  /** A whole run: the result, the warnings, the objects afterwards, whether the namespace is terminating, the polls made. */
  datatype Outcome = Outcome(result: CleanupResult, warnings: seq<Kind>, objects: map<Ref, Content>,
                             namespaceDeleted: bool, polls: nat)

  /** `_cleanup_failed_workspace` on the cluster; `None` when the wait does not end within `answers`. */
  function Cleanup(namespace: string, objects: map<Ref, Content>, refusedCollections: set<(Kind, string)>,
                   refusedNamespaceDeletes: set<string>, answers: seq<ReadAnswer>): Option<Outcome>
  {
    var (swept, warnings) := Sweep(objects, namespace, SweptKinds, refusedCollections);
    if NamespaceRef(namespace) !in swept || namespace in refusedNamespaceDeletes then
      Some(Outcome(CleanupFailed, warnings, swept, false, 0))
    else
      match Poll(answers, MaxRetries)
      case None => None
      case Some((how, polls)) =>
        var result := match how
          case NamespaceGone => Cleaned
          case RetriesExhausted => TimedOut
          case ReadRaised => CleanupFailed;
        Some(Outcome(result, warnings, swept, true, polls))
  }

  // ---- The sweep ----

  /** The sweep deletes the first kind, then sweeps the others. */
  lemma SweepFirst(objects: map<Ref, Content>, namespace: string, kinds: seq<Kind>,
                   refusedCollections: set<(Kind, string)>)
    requires kinds != []
    ensures var ok := (kinds[0], namespace) !in refusedCollections;
      var next := if ok then Without(objects, kinds[0], namespace) else objects;
      var (rest, warnings) := Sweep(next, namespace, kinds[1..], refusedCollections);
      Sweep(objects, namespace, kinds, refusedCollections) == (rest, (if ok then [] else [kinds[0]]) + warnings)
  {
  }

  /**
   * The sweep from the `k`-th kind on is deletion `k`, which leaves `after`
   * and warns about `failed`, followed by the sweep from the next kind.
   */
  predicate SweepsOne(namespace: string, refused: set<(Kind, string)>, k: nat,
                      before: map<Ref, Content>, after: map<Ref, Content>, failed: seq<Kind>)
    requires k < |SweptKinds|
  {
    var rest := Sweep(after, namespace, SweptKinds[k + 1..], refused);
    Sweep(before, namespace, SweptKinds[k..], refused) == (rest.0, failed + rest.1)
  }

  /** The four deletions one after the other make up the whole sweep. */
  lemma SweepInFour(namespace: string, refused: set<(Kind, string)>,
                    o0: map<Ref, Content>, o1: map<Ref, Content>, o2: map<Ref, Content>, o3: map<Ref, Content>,
                    o4: map<Ref, Content>, w0: seq<Kind>, w1: seq<Kind>, w2: seq<Kind>, w3: seq<Kind>)
    requires SweepsOne(namespace, refused, 0, o0, o1, w0) && SweepsOne(namespace, refused, 1, o1, o2, w1)
    requires SweepsOne(namespace, refused, 2, o2, o3, w2) && SweepsOne(namespace, refused, 3, o3, o4, w3)
    ensures Sweep(o0, namespace, SweptKinds, refused) == (o4, w0 + w1 + w2 + w3)
  {
    assert SweptKinds[0..] == SweptKinds && SweptKinds[4..] == [];
    assert w3 + [] == w3;
    assert Sweep(o3, namespace, SweptKinds[3..], refused) == (o4, w3);
    assert Sweep(o2, namespace, SweptKinds[2..], refused) == (o4, w2 + w3);
    assert Sweep(o1, namespace, SweptKinds[1..], refused) == (o4, w1 + (w2 + w3));
    assert w0 + (w1 + (w2 + w3)) == w0 + w1 + w2 + w3;
  }

  /**
   * Each deletion that went through removed its kind from the namespace;
   * everything else is left as it was; a kind is warned about exactly when
   * its deletion failed, and a failure does not stop the next deletion.
   */
  lemma {:induction false} SweepEffect(objects: map<Ref, Content>, namespace: string, kinds: seq<Kind>,
                                       refusedCollections: set<(Kind, string)>)
    ensures var (swept, warnings) := Sweep(objects, namespace, kinds, refusedCollections);
      && swept.Keys <= objects.Keys
      && (forall r :: r in swept ==> swept[r] == objects[r])
      && (forall r :: r in swept && r.namespace == namespace && r.kind in kinds ==> (r.kind, namespace) in refusedCollections)
      && (forall r :: r in objects && (r.namespace != namespace || r.kind !in kinds || (r.kind, namespace) in refusedCollections) ==> r in swept)
      && (forall k :: k in warnings <==> k in kinds && (k, namespace) in refusedCollections)
  {
    if kinds != [] {
      var ok := (kinds[0], namespace) !in refusedCollections;
      var next := if ok then Without(objects, kinds[0], namespace) else objects;
      SweepEffect(next, namespace, kinds[1..], refusedCollections);
      assert forall k :: k in kinds <==> k == kinds[0] || k in kinds[1..];
    }
  }

  // ---- The wait ----

  /** The number of successful polls among `answers`. */
  function PresentCount(answers: seq<ReadAnswer>): (n: nat)
    ensures n <= |answers|
  {
    if answers == [] then 0 else (if answers[0] == Present then 1 else 0) + PresentCount(answers[1..])
  }

  /**
   * The wait makes at most `retries` successful polls; it times out exactly
   * when it made that many; it reports the namespace gone only right after a
   * 404, and a read raising anything else ends it at once.
   */
  lemma {:induction false} PollBounds(answers: seq<ReadAnswer>, retries: nat)
    requires Poll(answers, retries).Some?
    ensures var (how, polls) := Poll(answers, retries).value;
      && polls <= |answers|
      && PresentCount(answers[..polls]) <= retries
      && (how == RetriesExhausted <==> PresentCount(answers[..polls]) == retries)
      && (how == NamespaceGone ==> polls >= 1 && answers[polls - 1] == ApiError(404))
      && (how == ReadRaised ==> polls >= 1 && answers[polls - 1] == OtherError)
    decreases |answers|
  {
    if retries > 0 {
      var (how, polls) := Poll(answers, retries).value;
      assert answers[..1] == [answers[0]];
      match answers[0]
      case Present =>
        PollBounds(answers[1..], retries - 1);
        assert answers[..polls][1..] == answers[1..][..polls - 1];
      case ApiError(status) =>
        if status != 404 {
          PollBounds(answers[1..], retries);
          assert answers[..polls][1..] == answers[1..][..polls - 1];
        }
      case OtherError =>
    } else {
      assert answers[..0] == [];
    }
  }

  /**
   * A read that keeps raising an `ApiException` other than 404 keeps the wait
   * going for as long as it lasts: no run of such answers ends it.
   */
  lemma {:induction false} OtherApiErrorsNeverEnd(answers: seq<ReadAnswer>, retries: nat)
    requires retries > 0
    requires forall i :: 0 <= i < |answers| ==> answers[i].ApiError? && answers[i].status != 404
    ensures Poll(answers, retries) == None
  {
    if answers != [] {
      assert answers[0].ApiError? && answers[0].status != 404;
      OtherApiErrorsNeverEnd(answers[1..], retries);
    }
  }

  /** Thirty successful polls in a row time the wait out, one read at a time. */
  lemma {:induction false} PresentOnlyTimesOut(answers: seq<ReadAnswer>, retries: nat)
    requires retries <= |answers|
    requires forall i :: 0 <= i < retries ==> answers[i] == Present
    ensures Poll(answers, retries) == Some((RetriesExhausted, retries))
  {
    if retries > 0 {
      PresentOnlyTimesOut(answers[1..], retries - 1);
    }
  }

  // ---- The whole cleanup ----

  /**
   * When `delete_namespace` raises, the error is logged, the wait is skipped
   * and the namespace is not deleted; nothing escapes.
   */
  lemma DeleteFailureSkipsWait(namespace: string, objects: map<Ref, Content>, refusedCollections: set<(Kind, string)>,
                               refusedNamespaceDeletes: set<string>, answers: seq<ReadAnswer>)
    requires NamespaceRef(namespace) !in objects || namespace in refusedNamespaceDeletes
    ensures Cleanup(namespace, objects, refusedCollections, refusedNamespaceDeletes, answers).Some?
    ensures var o := Cleanup(namespace, objects, refusedCollections, refusedNamespaceDeletes, answers).value;
      o.result == CleanupFailed && o.polls == 0 && !o.namespaceDeleted
  {
    SweepEffect(objects, namespace, SweptKinds, refusedCollections);
  }

  /** The namespace object survives the sweep, so the outcome of the deletion depends only on it and on the server. */
  lemma SweepKeepsNamespace(objects: map<Ref, Content>, namespace: string, refusedCollections: set<(Kind, string)>)
    ensures NamespaceRef(namespace) in Sweep(objects, namespace, SweptKinds, refusedCollections).0 <==>
            NamespaceRef(namespace) in objects
  {
    SweepEffect(objects, namespace, SweptKinds, refusedCollections);
  }

  /** A cleanup reports success only when the namespace was deleted and a read then found it gone. */
  lemma CleanedMeansGone(namespace: string, objects: map<Ref, Content>, refusedCollections: set<(Kind, string)>,
                         refusedNamespaceDeletes: set<string>, answers: seq<ReadAnswer>)
    requires Cleanup(namespace, objects, refusedCollections, refusedNamespaceDeletes, answers).Some?
    ensures var o := Cleanup(namespace, objects, refusedCollections, refusedNamespaceDeletes, answers).value;
      && o.polls <= |answers| && PresentCount(answers[..o.polls]) <= MaxRetries
      && (o.result == Cleaned ==> o.namespaceDeleted && o.polls >= 1 && answers[o.polls - 1] == ApiError(404))
      && (o.result == TimedOut <==> o.namespaceDeleted && PresentCount(answers[..o.polls]) == MaxRetries)
  {
    var (swept, warnings) := Sweep(objects, namespace, SweptKinds, refusedCollections);
    if NamespaceRef(namespace) in swept && namespace !in refusedNamespaceDeletes {
      PollBounds(answers, MaxRetries);
    } else {
      assert answers[..0] == [];
    }
  }
}
