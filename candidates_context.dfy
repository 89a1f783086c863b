/** The candidates controller: the candidate list, a loading flag and a
    sticky error message, a fetch from the mock server, and the stage update
    that is applied optimistically and then reconciled with the server's
    record or reverted. */
module CandidatesContext {
  import opened Common
  import opened Records
  import opened MockServer

  const FetchError: string := "Failed to fetch candidates"
  const StageError: string := "Failed to update candidate stage. Reverting."

  /** The optimistic step: `{ ...c, stage }` for every candidate with the id. */
  function SetStage(list: seq<Candidate>, id: Id, stage: string): seq<Candidate> {
    if list == [] then []
    else [if list[0].id == id then list[0].(stage := stage) else list[0]] + SetStage(list[1..], id, stage)
  }

  /** The reconciling step: the server's record replaces every candidate with its id. */
  function ReplaceCandidate(list: seq<Candidate>, rec: Candidate): seq<Candidate> {
    if list == [] then []
    else [if list[0].id == rec.id then rec else list[0]] + ReplaceCandidate(list[1..], rec)
  }

  lemma {:induction false} SetStageAt(list: seq<Candidate>, id: Id, stage: string)
    ensures |SetStage(list, id, stage)| == |list|
    ensures forall i :: 0 <= i < |list| ==>
      SetStage(list, id, stage)[i] == if list[i].id == id then list[i].(stage := stage) else list[i]
  {
    if list != [] {
      SetStageAt(list[1..], id, stage);
      var r := SetStage(list, id, stage);
      forall i | 1 <= i < |list|
        ensures r[i] == SetStage(list[1..], id, stage)[i - 1] && list[i] == list[1..][i - 1]
      {
      }
    }
  }

  lemma {:induction false} ReplaceCandidateAt(list: seq<Candidate>, rec: Candidate)
    ensures |ReplaceCandidate(list, rec)| == |list|
    ensures forall i :: 0 <= i < |list| ==>
      ReplaceCandidate(list, rec)[i] == if list[i].id == rec.id then rec else list[i]
  {
    if list != [] {
      ReplaceCandidateAt(list[1..], rec);
      var r := ReplaceCandidate(list, rec);
      forall i | 1 <= i < |list|
        ensures r[i] == ReplaceCandidate(list[1..], rec)[i - 1] && list[i] == list[1..][i - 1]
      {
      }
    }
  }

  /** Reconciling after the optimistic step gives the same list as replacing
      in the snapshot: the optimistic stage is fully overwritten. */
  lemma ReconcileOverridesOptimistic(list: seq<Candidate>, rec: Candidate, stage: string)
    ensures ReplaceCandidate(SetStage(list, rec.id, stage), rec) == ReplaceCandidate(list, rec)
  {
    SetStageAt(list, rec.id, stage);
    ReplaceCandidateAt(SetStage(list, rec.id, stage), rec);
    ReplaceCandidateAt(list, rec);
  }

  /** The request body `{stage: newStage}`. */
  function StagePatch(stage: string): CandidatePatch {
    CandidatePatch(None, None, Some(stage), None)
  }

  class CandidatesController {
    var candidates: seq<Candidate>
    var loading: bool
    var error: Option<string>

    constructor ()
      ensures candidates == [] && loading && error == None
    {
      candidates := [];
      loading := true;
      error := None;
    }

    /** `fetchCandidates`: `GET /candidates`; a failure keeps the list and
        sets the fetch error; loading is off afterwards in both cases, and a
        success does not clear an earlier error. */
    method FetchCandidates(server: Server, ok: bool)
      modifies this
      ensures !loading
      ensures ok ==> candidates == server.AllCandidates() && error == old(error)
      ensures !ok ==> candidates == old(candidates) && error == Some(FetchError)
    {
      loading := true;
      if ok {
        candidates := server.AllCandidates();
      } else {
        error := Some(FetchError);
      }
      loading := false;
    }

    /** `updateCandidateStage`. `reachable` is whether the request gets an
        answer at all; when it does, the server's PATCH handler runs with
        `{stage: newStage}` and its `new Date()` equal to `now`. A 404 or an
        unreachable server restores the snapshot and sets the stage error;
        otherwise the server's record replaces the candidate. */
    method UpdateCandidateStage(server: Server, candidateId: Id, newStage: string, reachable: bool, now: int)
      requires server.Valid()
      modifies this, server
      ensures server.Valid()
      ensures loading == old(loading)
      ensures !reachable ==> server.candidates == old(server.candidates)
      ensures reachable ==> (server.candidates ==
        if candidateId in old(server.candidates)
        then old(server.candidates)[candidateId := PatchedCandidate(old(server.candidates)[candidateId], StagePatch(newStage), now)]
        else old(server.candidates))
      ensures server.jobs == old(server.jobs)
      ensures (!reachable || candidateId !in old(server.candidates)) ==>
        candidates == old(candidates) && error == Some(StageError)
      ensures reachable && candidateId in old(server.candidates) ==>
        candidates == ReplaceCandidate(old(candidates), server.candidates[candidateId]) && error == old(error)
    {
      var originalCandidates := candidates;
      candidates := SetStage(candidates, candidateId, newStage);
      if !reachable {
        error := Some(StageError);
        candidates := originalCandidates;
        return;
      }
      var reply := server.PatchCandidate(candidateId, StagePatch(newStage), now);
      if reply.NotFound? {
        error := Some(StageError);
        candidates := originalCandidates;
        return;
      }
      ReconcileOverridesOptimistic(originalCandidates, reply.value, newStage);
      candidates := ReplaceCandidate(candidates, reply.value);
    }
  }

  /** After a successful stage update the candidate with that id is the
      server's record, with the new stage, and every other candidate is as
      before. */
  lemma StageUpdateOutcome(list: seq<Candidate>, c: Candidate, newStage: string, now: int)
    ensures var rec := PatchedCandidate(c, StagePatch(newStage), now);
      |ReplaceCandidate(list, rec)| == |list| &&
      rec.stage == newStage && rec.id == c.id &&
      (forall i :: 0 <= i < |list| && list[i].id == c.id ==> ReplaceCandidate(list, rec)[i] == rec) &&
      (forall i :: 0 <= i < |list| && list[i].id != c.id ==> ReplaceCandidate(list, rec)[i] == list[i])
  {
    ReplaceCandidateAt(list, PatchedCandidate(c, StagePatch(newStage), now));
  }
}
