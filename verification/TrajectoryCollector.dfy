/**
 * The collector's own bookkeeping: the weight version it generates with, the targets it has reserved, and the event on
 * which it waits when all targets are taken.
 */
module TrajectoryCollectors {
  import opened Seqs
  import opened AsyncProtocol

  class AsyncTrajectoryCollector {
    const initialWeightVersion: int
    const maxTrajectoryAge: nat
    var currentWeightVersion: int
    var generatingTargets: set<int>
    var generationLimitCleared: bool
    var lastLimitWarningVersion: Option<int>

    constructor (startStep: int, maxTrajectoryAge: nat)
      ensures initialWeightVersion == currentWeightVersion == startStep
      ensures this.maxTrajectoryAge == maxTrajectoryAge && generatingTargets == {}
      ensures generationLimitCleared && lastLimitWarningVersion == None
    {
      initialWeightVersion, currentWeightVersion, generatingTargets := startStep, startStep, {};
      this.maxTrajectoryAge := maxTrajectoryAge;
      generationLimitCleared, lastLimitWarningVersion := true, None;
    }

    /** The targets of a version that nobody has generated or is generating: the first of them, if any. */
    ghost function Next(version: int, last: int): Option<int>
      reads this`generatingTargets
    {
      NextTarget(TargetWeights(Config(initialWeightVersion, 0, maxTrajectoryAge), version), last, generatingTargets)
    }

    /** Reserves the first target of the generation window that nobody has generated or is generating, if any. */
    method GetNextTargetForGeneration(generationWeightVersion: int, lastTargetWeightAlreadyGenerated: int)
      returns (target: Option<int>)
      modifies this`generatingTargets
      ensures target == old(Next(generationWeightVersion, lastTargetWeightAlreadyGenerated))
      ensures generatingTargets == old(generatingTargets) + (if target.Some? then {target.value} else {})
    {
      var targets := TargetWeights(Config(initialWeightVersion, 0, maxTrajectoryAge), generationWeightVersion);
      var last := lastTargetWeightAlreadyGenerated;
      for i := 0 to |targets|
        invariant generatingTargets == old(generatingTargets)
        invariant NextTarget(targets, last, generatingTargets) == NextTarget(targets[i..], last, generatingTargets)
      {
        if targets[i] > last && targets[i] !in generatingTargets {
          generatingTargets := generatingTargets + {targets[i]};
          return Some(targets[i]);
        }
        assert targets[i..][1..] == targets[i + 1..];
      }
      return None;
    }

    /** The limit check pauses exactly when the next batch would find nothing to reserve. */
    method ShouldPauseForGenerationLimits(lastTargetWeightAlreadyGenerated: int) returns (pause: bool)
      ensures pause <==> Next(currentWeightVersion, lastTargetWeightAlreadyGenerated) == None
    {
      var targets := TargetWeights(Config(initialWeightVersion, 0, maxTrajectoryAge), currentWeightVersion);
      var last := lastTargetWeightAlreadyGenerated;
      for i := 0 to |targets|
        invariant NextTarget(targets, last, generatingTargets) == NextTarget(targets[i..], last, generatingTargets)
      {
        if targets[i] > last && targets[i] !in generatingTargets {
          return false;
        }
        assert targets[i..][1..] == targets[i + 1..];
      }
      return true;
    }

    /** Once per version, finding all targets taken makes the collector wait for the next one. */
    method NotePause()
      modifies this`generationLimitCleared, this`lastLimitWarningVersion
      ensures lastLimitWarningVersion == Some(currentWeightVersion)
      ensures generationLimitCleared <==>
        old(generationLimitCleared) && old(lastLimitWarningVersion) == Some(currentWeightVersion)
    {
      if lastLimitWarningVersion != Some(currentWeightVersion) {
        lastLimitWarningVersion := Some(currentWeightVersion);
        generationLimitCleared := false;
      }
    }

    /** A new version also wakes a collector that waits for one. */
    method SetWeightVersion(version: int)
      modifies this`currentWeightVersion, this`generationLimitCleared
      ensures currentWeightVersion == version && generationLimitCleared
    {
      currentWeightVersion := version;
      if !generationLimitCleared {
        generationLimitCleared := true;
      }
    }

    /** A worker gives a reservation back; giving back one that is gone changes nothing. */
    method ReleaseReservation(target: int)
      modifies this`generatingTargets
      ensures generatingTargets == old(generatingTargets) - {target}
    {
      if target in generatingTargets {
        generatingTargets := generatingTargets - {target};
      }
    }
  }
}
