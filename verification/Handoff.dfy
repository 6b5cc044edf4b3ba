/**
 Moving the spending scope from one frozen run to the next.

 A file has two copies: what was last written, and what the last commit of its
 volume made durable. A crash keeps, file by file, either copy. The bridge moves
 the scope between two volumes with separate commits; the other transitions move
 it inside one volume. Both archive a receipt first.
 */
module Handoff {
  import opened Wrappers

  /** The archived proof of a move; only its identity matters here. */
  type Receipt(==)

  datatype Scope = Scope(runId: string, configHash: string)

  datatype Copy<T> = Copy(written: Option<T>, durable: Option<T>) {
    function Write(value: T): Copy<T> {
      Copy(Some(value), durable)
    }

    function Commit(): Copy<T> {
      Copy(written, written)
    }

    /** `kept` is what a crash may leave of this file. */
    ghost predicate Leaves(kept: Copy<T>) {
      kept.written == kept.durable && (kept.written == written || kept.written == durable)
    }

    ghost predicate Ever(value: Option<T>) {
      written == value || durable == value
    }

    ghost predicate Settled(value: Option<T>) {
      written == value && durable == value
    }
  }

  /** The queue's own test before it may spend: the scope file names this run, or a first run finds none. */
  predicate GatePasses(scope: Option<Scope>, run: Scope, hasPriorRun: bool) {
    !(scope.Some? && scope.value != run) && !(hasPriorRun && scope.None?)
  }

  datatype Error =
    | ScopeChanged
    | TargetOwnedByAnother
    | ReceiptDiffers
    | ReceiptMissing
    | ActiveBeforeRetired

  // ---------------------------------------------------------------------
  // The bridge between two volumes
  // ---------------------------------------------------------------------

  /** The probe volume holds `source`; the full volume holds `target` and `archive`. */
  datatype Volumes = Volumes(source: Copy<Scope>, target: Copy<Scope>, archive: Copy<Receipt>) {
    function CommitProbe(): Volumes {
      this.(source := source.Commit())
    }

    function CommitFull(): Volumes {
      this.(target := target.Commit(), archive := archive.Commit())
    }

    ghost predicate Leaves(kept: Volumes) {
      source.Leaves(kept.source) && target.Leaves(kept.target) && archive.Leaves(kept.archive)
    }
  }

  /** One reviewed move: from which run, to which, and the receipt its frozen inputs determine. */
  datatype Move = Move(prior: Scope, next: Scope, receipt: Receipt)

  /** The states a bridge call passes through after `v`, one per write and commit. */
  ghost function BridgeTrail(v: Volumes, m: Move): seq<Volumes> {
    var archived := if v.archive.written.Some? then [] else
                      var w := v.(archive := v.archive.Write(m.receipt));
                      [w, w.CommitFull()];
    var v1 := if archived == [] then v else archived[1];
    if v1.target.written.Some? then archived else
      var retired := if v1.source.written != Some(m.prior) then [] else
                       var w := v1.(source := v1.source.Write(m.next));
                       [w, w.CommitProbe()];
      var v2 := if retired == [] then v1 else retired[1];
      var w := v2.(target := v2.target.Write(m.next));
      archived + retired + [w, w.CommitFull()]
  }

  /** Why a bridge call on `v` refuses, if it does. */
  function BridgeRefusal(v: Volumes, m: Move): Option<Error> {
    if v.source.written != Some(m.prior) && v.source.written != Some(m.next) then Some(ScopeChanged)
    else if v.target.written.Some? && v.target.written != Some(m.next) then Some(TargetOwnedByAnother)
    else if v.archive.written.Some? && v.archive.written != Some(m.receipt) then Some(ReceiptDiffers)
    else if v.archive.written.None? && (v.target.written.Some? || v.source.written != Some(m.prior)) then Some(ReceiptMissing)
    else if v.target.written.Some? && v.source.written != Some(m.next) then Some(ActiveBeforeRetired)
    else None
  }

  class BridgeVolumes {
    var source: Copy<Scope>
    var target: Copy<Scope>
    var archive: Copy<Receipt>

    ghost function View(): Volumes
      reads this
    {
      Volumes(source, target, archive)
    }

    constructor (v: Volumes)
      ensures View() == v
    {
      source := v.source;
      target := v.target;
      archive := v.archive;
    }

    method CommitProbe()
      modifies this`source
      ensures View() == old(View()).CommitProbe()
    {
      source := source.Commit();
    }

    method CommitFull()
      modifies this`target, this`archive
      ensures View() == old(View()).CommitFull()
    {
      target := target.Commit();
      archive := archive.Commit();
    }

    method Bridge(m: Move) returns (r: Result<Receipt, Error>, ghost trail: seq<Volumes>)
      requires m.prior != m.next
      modifies this
      ensures r == match BridgeRefusal(old(View()), m)
                   case Some(error) => Failure(error)
                   case None => Success(m.receipt)
      ensures r.Failure? ==> View() == old(View()) && trail == []
      ensures r.Success? ==> trail == BridgeTrail(old(View()), m)
      ensures View() == if trail == [] then old(View()) else trail[|trail| - 1]
    {
      trail := [];
      if source.written != Some(m.prior) && source.written != Some(m.next) {
        return Failure(ScopeChanged), [];
      }
      if target.written.Some? && target.written != Some(m.next) {
        return Failure(TargetOwnedByAnother), [];
      }
      if archive.written.Some? {
        if archive.written != Some(m.receipt) {
          return Failure(ReceiptDiffers), [];
        }
      } else {
        if target.written.Some? || source.written != Some(m.prior) {
          return Failure(ReceiptMissing), [];
        }
        archive := archive.Write(m.receipt);
        trail := trail + [View()];
        CommitFull();
        trail := trail + [View()];
      }
      if target.written.Some? {
        if source.written != Some(m.next) {
          return Failure(ActiveBeforeRetired), trail;
        }
        return Success(m.receipt), trail;
      }
      ghost var archived := trail;
      if source.written == Some(m.prior) {
        source := source.Write(m.next);
        trail := trail + [View()];
        CommitProbe();
        trail := trail + [View()];
      }
      if source.written != Some(m.next) || target.written.Some? {
        assert false;
      }
      target := target.Write(m.next);
      trail := trail + [View()];
      CommitFull();
      trail := trail + [View()];
      return Success(m.receipt), trail;
    }
  }

  /** No copy that could survive activates the target before the source is durably retired and the receipt archived. */
  ghost predicate BridgeSafe(v: Volumes, m: Move) {
    && v.source.written in {Some(m.prior), Some(m.next)}
    && v.source.durable in {Some(m.prior), Some(m.next)}
    && v.target.written in {None, Some(m.next)}
    && v.target.durable in {None, Some(m.next)}
    && (v.archive.written == None || v.archive.written == Some(m.receipt))
    && (v.archive.durable == None || v.archive.durable == Some(m.receipt))
    && (v.source.Ever(Some(m.next)) ==> v.archive.Settled(Some(m.receipt)))
    && (v.target.Ever(Some(m.next)) ==> v.source.Settled(Some(m.next)))
  }

  /** Nothing uncommitted, as a call finds its volumes. */
  ghost predicate Rested(v: Volumes) {
    && v.source.written == v.source.durable
    && v.target.written == v.target.durable
    && v.archive.written == v.archive.durable
  }

  /** The move complete and durable. */
  ghost function Moved(m: Move): Volumes {
    Volumes(Copy(Some(m.next), Some(m.next)), Copy(Some(m.next), Some(m.next)), Copy(Some(m.receipt), Some(m.receipt)))
  }

  /** Where a bridge call leaves the volumes. */
  ghost function Bridged(v: Volumes, m: Move): Volumes {
    var trail := BridgeTrail(v, m);
    if trail == [] then v else trail[|trail| - 1]
  }

  /** From a safe start every write and commit of the bridge is safe, and the call ends with the move complete. */
  lemma BridgeIsSafe(v: Volumes, m: Move)
    requires m.prior != m.next && BridgeSafe(v, m) && Rested(v)
    ensures BridgeRefusal(v, m).None?
    ensures forall i :: 0 <= i < |BridgeTrail(v, m)| ==> BridgeSafe(BridgeTrail(v, m)[i], m)
    ensures Bridged(v, m) == Moved(m)
  {
  }

  /** On volumes at rest a bridge call is refused exactly when they are not safe. */
  lemma BridgeRefusesUnsafe(v: Volumes, m: Move)
    requires m.prior != m.next && Rested(v)
    ensures BridgeRefusal(v, m).None? <==> BridgeSafe(v, m)
  {
  }

  /** The reason given names the first thing that is wrong: source, target, receipt, and then their order. */
  lemma BridgeSaysWhy(v: Volumes, m: Move)
    requires m.prior != m.next
    ensures BridgeRefusal(v, m) == Some(ScopeChanged) <==> v.source.written !in {Some(m.prior), Some(m.next)}
    ensures BridgeRefusal(v, m) == Some(TargetOwnedByAnother) <==>
              v.source.written in {Some(m.prior), Some(m.next)} && v.target.written !in {None, Some(m.next)}
    ensures BridgeRefusal(v, m) == Some(ReceiptDiffers) <==>
              && v.source.written in {Some(m.prior), Some(m.next)} && v.target.written in {None, Some(m.next)}
              && v.archive.written.Some? && v.archive.written.value != m.receipt
    ensures BridgeRefusal(v, m) == Some(ReceiptMissing) <==>
              && v.source.written in {Some(m.prior), Some(m.next)} && v.target.written in {None, Some(m.next)}
              && v.archive.written.None? && (v.source.written == Some(m.next) || v.target.written == Some(m.next))
    ensures BridgeRefusal(v, m) == Some(ActiveBeforeRetired) <==>
              && v.archive.written.Some? && v.archive.written.value == m.receipt
              && v.source.written == Some(m.prior) && v.target.written == Some(m.next)
  {
  }

  lemma CrashIsSafe(v: Volumes, kept: Volumes, m: Move)
    requires BridgeSafe(v, m) && v.Leaves(kept)
    ensures BridgeSafe(kept, m)
  {
  }

  /**
   Whichever copy of each scope the two queues find, at most one of them gets past
   its gate; the next run, which names its prior one, only with the source retired
   and the receipt archived in every copy.
   */
  ghost predicate OneAdmitted(v: Volumes, m: Move) {
    forall source, target, priorHasPriorRun: bool :: v.source.Ever(source) && v.target.Ever(target) ==>
      && !(GatePasses(source, m.prior, priorHasPriorRun) && GatePasses(target, m.next, true))
      && (GatePasses(target, m.next, true) ==>
            v.source.Settled(Some(m.next)) && v.archive.Settled(Some(m.receipt)))
  }

  /** Safe volumes admit at most one of the two runs. */
  lemma OneRunnerOnly(v: Volumes, m: Move)
    requires m.prior != m.next && BridgeSafe(v, m)
    ensures OneAdmitted(v, m)
  {
  }

  /** The volumes after the first `i` writes and commits of a bridge call on `v`. */
  ghost function CrashPoint(v: Volumes, m: Move, i: nat): Volumes
    requires i <= |BridgeTrail(v, m)|
  {
    if i == 0 then v else BridgeTrail(v, m)[i - 1]
  }

  /** Untouched volumes on which only the prior run owns a scope. */
  ghost predicate BeforeBridge(v: Volumes, m: Move) {
    v.source.Settled(Some(m.prior)) && v.target.Settled(None) && v.archive.Settled(None)
  }

  /** Each call but the last was cut off by a crash after some of its writes and commits. */
  ghost predicate CutOffCalls(vs: seq<Volumes>, points: seq<nat>, m: Move) {
    && |vs| == |points| + 1
    && BeforeBridge(vs[0], m)
    && forall k :: 0 <= k < |points| ==>
         points[k] <= |BridgeTrail(vs[k], m)| && CrashPoint(vs[k], m, points[k]).Leaves(vs[k + 1])
  }

  /**
   However often the bridge is cut off and called again, at every point of every
   call at most one run is admitted, and a call left alone completes the same move.
   */
  lemma {:induction false} BridgeSurvivesCrashes(vs: seq<Volumes>, points: seq<nat>, m: Move, k: nat)
    requires m.prior != m.next && CutOffCalls(vs, points, m) && k < |vs|
    ensures BridgeSafe(vs[k], m) && Rested(vs[k])
    ensures forall i :: 0 <= i <= |BridgeTrail(vs[k], m)| ==>
              BridgeSafe(CrashPoint(vs[k], m, i), m) && OneAdmitted(CrashPoint(vs[k], m, i), m)
    ensures BridgeRefusal(vs[k], m).None?
    ensures Bridged(vs[k], m) == Moved(m)
  {
    if k > 0 {
      BridgeSurvivesCrashes(vs, points, m, k - 1);
      CrashIsSafe(CrashPoint(vs[k - 1], m, points[k - 1]), vs[k], m);
    }
    BridgeIsSafe(vs[k], m);
    forall i | 0 <= i <= |BridgeTrail(vs[k], m)|
      ensures BridgeSafe(CrashPoint(vs[k], m, i), m) && OneAdmitted(CrashPoint(vs[k], m, i), m)
    {
      OneRunnerOnly(CrashPoint(vs[k], m, i), m);
    }
  }

  // ---------------------------------------------------------------------
  // The transitions inside one volume
  // ---------------------------------------------------------------------

  datatype Volume = Volume(scope: Copy<Scope>, archive: Copy<Receipt>) {
    function Commit(): Volume {
      Volume(scope.Commit(), archive.Commit())
    }

    ghost predicate Leaves(kept: Volume) {
      scope.Leaves(kept.scope) && archive.Leaves(kept.archive)
    }
  }

  ghost function TransitionTrail(v: Volume, m: Move): seq<Volume> {
    var archived := if v.archive.written.Some? then [] else
                      var w := v.(archive := v.archive.Write(m.receipt));
                      [w, w.Commit()];
    var v1 := if archived == [] then v else archived[1];
    if v1.scope.written == Some(m.next) then archived else
      var w := v1.(scope := v1.scope.Write(m.next));
      archived + [w, w.Commit()]
  }

  function TransitionRefusal(v: Volume, m: Move): Option<Error> {
    if v.scope.written != Some(m.prior) && v.scope.written != Some(m.next) then Some(ScopeChanged)
    else if v.archive.written.Some? && v.archive.written != Some(m.receipt) then Some(ReceiptDiffers)
    else if v.archive.written.None? && v.scope.written == Some(m.next) then Some(ReceiptMissing)
    else None
  }

  class QueueVolume {
    var scope: Copy<Scope>
    var archive: Copy<Receipt>

    ghost function View(): Volume
      reads this
    {
      Volume(scope, archive)
    }

    constructor (v: Volume)
      ensures View() == v
    {
      scope := v.scope;
      archive := v.archive;
    }

    method Commit()
      modifies this
      ensures View() == old(View()).Commit()
    {
      scope := scope.Commit();
      archive := archive.Commit();
    }

    method Transition(m: Move) returns (r: Result<Receipt, Error>, ghost trail: seq<Volume>)
      requires m.prior != m.next
      modifies this
      ensures r == match TransitionRefusal(old(View()), m)
                   case Some(error) => Failure(error)
                   case None => Success(m.receipt)
      ensures r.Failure? ==> View() == old(View()) && trail == []
      ensures r.Success? ==> trail == TransitionTrail(old(View()), m)
      ensures View() == if trail == [] then old(View()) else trail[|trail| - 1]
    {
      trail := [];
      var found := scope.written;
      if found != Some(m.prior) && found != Some(m.next) {
        return Failure(ScopeChanged), [];
      }
      if archive.written.Some? {
        if archive.written != Some(m.receipt) {
          return Failure(ReceiptDiffers), [];
        }
      } else {
        if found == Some(m.next) {
          return Failure(ReceiptMissing), [];
        }
        archive := archive.Write(m.receipt);
        trail := trail + [View()];
        Commit();
        trail := trail + [View()];
      }
      if scope.written == Some(m.next) {
        return Success(m.receipt), trail;
      }
      if scope.written != Some(m.prior) {
        assert false;
      }
      scope := scope.Write(m.next);
      trail := trail + [View()];
      Commit();
      trail := trail + [View()];
      return Success(m.receipt), trail;
    }
  }

  /** In every copy that could survive, the new scope implies its archived receipt. */
  ghost predicate TransitionSafe(v: Volume, m: Move) {
    && v.scope.written in {Some(m.prior), Some(m.next)}
    && v.scope.durable in {Some(m.prior), Some(m.next)}
    && (v.archive.written == None || v.archive.written == Some(m.receipt))
    && (v.archive.durable == None || v.archive.durable == Some(m.receipt))
    && (v.scope.Ever(Some(m.next)) ==> v.archive.Settled(Some(m.receipt)))
  }

  ghost predicate VolumeRested(v: Volume) {
    v.scope.written == v.scope.durable && v.archive.written == v.archive.durable
  }

  /** On a volume at rest a transition is refused exactly when it is not safe, for the first thing that is wrong. */
  lemma TransitionRefusesUnsafe(v: Volume, m: Move)
    requires m.prior != m.next
    ensures VolumeRested(v) ==> (TransitionRefusal(v, m).None? <==> TransitionSafe(v, m))
    ensures TransitionRefusal(v, m) == Some(ScopeChanged) <==> v.scope.written !in {Some(m.prior), Some(m.next)}
    ensures TransitionRefusal(v, m) == Some(ReceiptDiffers) <==>
              && v.scope.written in {Some(m.prior), Some(m.next)}
              && v.archive.written.Some? && v.archive.written.value != m.receipt
    ensures TransitionRefusal(v, m) == Some(ReceiptMissing) <==>
              v.scope.written == Some(m.next) && v.archive.written.None?
  {
  }

  ghost function VolumeAt(v: Volume, m: Move, i: nat): Volume
    requires i <= |TransitionTrail(v, m)|
  {
    if i == 0 then v else TransitionTrail(v, m)[i - 1]
  }

  ghost predicate CutOffTransitions(vs: seq<Volume>, points: seq<nat>, m: Move) {
    && |vs| == |points| + 1
    && vs[0].scope.Settled(Some(m.prior)) && vs[0].archive.Settled(None)
    && forall k :: 0 <= k < |points| ==>
         points[k] <= |TransitionTrail(vs[k], m)| && VolumeAt(vs[k], m, points[k]).Leaves(vs[k + 1])
  }

  /**
   However often a transition is cut off and called again, at every point exactly one
   of the two runs passes the scope gate on whichever copy of the scope a crash may
   leave, the next one only with its receipt durable, and a call left alone ends with
   the same scope and receipt.
   */
  lemma {:induction false} TransitionSurvivesCrashes(vs: seq<Volume>, points: seq<nat>, m: Move, k: nat)
    requires m.prior != m.next && CutOffTransitions(vs, points, m) && k < |vs|
    ensures TransitionSafe(vs[k], m) && VolumeRested(vs[k])
    ensures forall i :: 0 <= i <= |TransitionTrail(vs[k], m)| ==>
              var v := VolumeAt(vs[k], m, i);
              && TransitionSafe(v, m)
              && forall scope :: v.scope.Ever(scope) ==>
                   && (GatePasses(scope, m.next, true) <==> !GatePasses(scope, m.prior, true))
                   && (GatePasses(scope, m.next, true) ==> v.archive.Settled(Some(m.receipt)))
    ensures TransitionRefusal(vs[k], m).None?
    ensures VolumeAt(vs[k], m, |TransitionTrail(vs[k], m)|)
         == Volume(Copy(Some(m.next), Some(m.next)), Copy(Some(m.receipt), Some(m.receipt)))
  {
    if k > 0 {
      TransitionSurvivesCrashes(vs, points, m, k - 1);
    }
  }
}
