/**
 Evidence of one owner attempt: staged in a directory of its own, promoted by one rename under the
 idempotency key's lock, quarantined otherwise. Other attempts may commit while the owner runs.
 */
module EvidencePromotion {
  import opened Common
  import opened OwnerExecution

  /** The idempotency record inside an evidence directory. */
  datatype Cache = Cache(requestDigest: Name, result: Name)

  datatype Attempt = Attempt(key: Name, requestDigest: Name, directory: Name)

  /** What the environment does: the record the owner left, commits of others meanwhile, and failing file operations. */
  datatype World = World(staged: Option<Cache>, others: map<Name, Cache>, removeFails: bool, renameFails: bool)

  /** No committed record is ever replaced. */
  ghost predicate KeepsCommitted(earlier: map<Name, Cache>, later: map<Name, Cache>) {
    forall k :: k in earlier ==> k in later && later[k] == earlier[k]
  }

  /** The attempt may grant its staged evidence authority: a fenced result that its record repeats. */
  predicate Promotable(a: Attempt, staged: Option<Cache>, answer: Outcome) {
    answer.Completed? && staged == Some(Cache(a.requestDigest, answer.result))
  }

  /** `bare` are the keys whose committed directory holds no record. */
  class EvidenceRoot {
    var committed: map<Name, Cache>
    var bare: set<Name>
    var staging: set<Name>
    var quarantine: set<Name>

    constructor ()
      ensures committed == map[] && bare == {} && staging == {} && quarantine == {}
    {
      committed, bare, staging, quarantine := map[], {}, {}, {};
    }

    /** The committed result of the key; another request under the same key is refused. */
    function BoundResult(key: Name, requestDigest: Name): Result<Option<Name>, Error>
      reads this
    {
      if key !in committed then Ok(None)
      else if committed[key].requestDigest != requestDigest then Err(Evidence)
      else Ok(Some(committed[key].result))
    }

    /** Promotes the staged directory, or yields to evidence committed meanwhile; a directory without a record stays. */
    method CommitStagingResult(a: Attempt, staged: Option<Cache>, expected: Name) returns (result: Result<Name, Error>)
      modifies this`committed, this`staging
      ensures var held := old(BoundResult(a.key, a.requestDigest));
              if staged != Some(Cache(a.requestDigest, expected)) then
                result == Err(Evidence) && committed == old(committed) && staging == old(staging)
              else if held.Err? then result == Err(held.error) && committed == old(committed) && staging == old(staging)
              else if held.value.Some?
                   then result == Ok(held.value.value) && committed == old(committed) && staging == old(staging)
              else if a.key in bare
                   then result == Err(Evidence) && committed == old(committed) && staging == old(staging)
              else
                && result == Ok(expected) && committed == old(committed)[a.key := staged.value]
                && staging == old(staging) - {a.directory}
    {
      if staged.None? || staged.value.requestDigest != a.requestDigest || staged.value.result != expected {
        return Err(Evidence);
      }
      var held := BoundResult(a.key, a.requestDigest);
      if held.Err? {
        return Err(held.error);
      }
      if held.value.Some? {
        return Ok(held.value.value);
      }
      if a.key in bare {
        return Err(Evidence);
      }
      committed, staging := committed[a.key := staged.value], staging - {a.directory};
      return Ok(expected);
    }

    /** Moves what is still staged out of the way; a failing rename leaves it under staging. */
    method QuarantineStaging(a: Attempt, renameFails: bool)
      modifies this`staging, this`quarantine
      ensures if a.directory !in old(staging) || renameFails
              then staging == old(staging) && quarantine == old(quarantine)
              else staging == old(staging) - {a.directory} && quarantine == old(quarantine) + {a.directory}
    {
      if a.directory in staging && !renameFails {
        staging, quarantine := staging - {a.directory}, quarantine + {a.directory};
      }
    }

    /**
     One fenced execution. Success always returns the one committed result of the key; staged
     evidence is promoted exactly when the execution completed fenced, its record matches, no other
     attempt was first and no directory without a record is in the way; whatever is not promoted or
     removed ends in quarantine.
     */
    method RunFencedOwnerExecution(a: Attempt, loop: EventLoop, world: World) returns (outcome: Outcome)
      requires a.directory !in staging && a.directory !in quarantine
      modifies this`committed, this`staging, this`quarantine, loop
      ensures KeepsCommitted(old(committed), committed)
      ensures outcome.Completed? ==> a.key in committed && committed[a.key] == Cache(a.requestDigest, outcome.result)
      ensures a.key in old(committed) ==> committed == old(committed) && loop.script == old(loop.script)
      ensures a.key !in old(committed) && a.key !in world.others ==>
                (a.key in committed <==> a.key !in bare && Promotable(a, world.staged, Answer(old(loop.script))))
      ensures a.key !in old(committed) && !outcome.Completed? && !world.renameFails ==>
                a.directory in quarantine
      ensures a.directory in quarantine ==> !outcome.Completed?
      ensures a.directory in staging ==> world.renameFails && !outcome.Completed?
      ensures !Answer(old(loop.script)).Completed? && a.key !in old(committed) ==>
                outcome == Answer(old(loop.script)) && committed == world.others + old(committed)
    {
      var held := BoundResult(a.key, a.requestDigest);
      if held.Err? {
        return Failed(held.error);
      }
      if held.value.Some? {
        return Completed(held.value.value);
      }
      staging := staging + {a.directory};
      outcome := RunOwnerExecution(loop);
      committed := world.others + committed;
      if outcome.Completed? {
        var result := CommitStagingResult(a, world.staged, outcome.result);
        if result.Err? {
          outcome := Failed(result.error);
        } else if a.directory in staging && world.removeFails {
          outcome := Failed(Evidence);
        } else {
          staging := staging - {a.directory};
          return Completed(result.value);
        }
      }
      QuarantineStaging(a, world.renameFails);
    }
  }
}
