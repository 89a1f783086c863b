/** The candidates page's rules: the search and stage filter, the kanban
    board's columns, and the drag handler that moves a candidate to another
    stage. */
module CandidatePage {
  import opened Common
  import opened Records

  /** The search matches the lower-cased name or e-mail; the stage filter
      applies when one is chosen. */
  predicate MatchesCandidate(c: Candidate, search: string, stageFilter: string) {
    var needle := Lower(search);
    (Contains(Lower(c.name), needle) || Contains(Lower(c.email), needle)) &&
    (stageFilter == "" || c.stage == stageFilter)
  }

  function FilteredCandidates(list: seq<Candidate>, search: string, stageFilter: string): seq<Candidate> {
    if list == [] then []
    else (if MatchesCandidate(list[0], search, stageFilter) then [list[0]] else []) +
         FilteredCandidates(list[1..], search, stageFilter)
  }

  lemma {:induction false} FilteredMembers(list: seq<Candidate>, search: string, stageFilter: string, x: Candidate)
    ensures x in FilteredCandidates(list, search, stageFilter) <==> x in list && MatchesCandidate(x, search, stageFilter)
    ensures |FilteredCandidates(list, search, stageFilter)| <= |list|
  {
    if list != [] {
      FilteredMembers(list[1..], search, stageFilter, x);
      assert list == [list[0]] + list[1..];
    }
  }

  /** With no search and no stage filter every candidate is shown, in order. */
  lemma {:induction false} NoFiltersKeepsAll(list: seq<Candidate>)
    ensures FilteredCandidates(list, "", "") == list
  {
    if list != [] {
      ContainsEmpty(Lower(list[0].name));
      assert Lower("") == "";
      NoFiltersKeepsAll(list[1..]);
      assert list == [list[0]] + list[1..];
    }
  }

  /** One kanban column: the candidates with that stage, in order. */
  function Column(list: seq<Candidate>, stage: string): seq<Candidate> {
    if list == [] then []
    else (if list[0].stage == stage then [list[0]] else []) + Column(list[1..], stage)
  }

  /** The board: one column per pipeline stage. */
  function Board(filtered: seq<Candidate>): seq<seq<Candidate>> {
    seq(|Stages|, i requires 0 <= i < |Stages| => Column(filtered, Stages[i]))
  }

  lemma {:induction false} ColumnMembers(list: seq<Candidate>, stage: string, x: Candidate)
    ensures x in Column(list, stage) <==> x in list && x.stage == stage
  {
    if list != [] {
      ColumnMembers(list[1..], stage, x);
      assert list == [list[0]] + list[1..];
    }
  }

  /** A candidate appears on the board iff its stage is a pipeline stage;
      it then appears in exactly the column of that stage. */
  lemma OnBoardIffStageListed(filtered: seq<Candidate>, x: Candidate)
    requires x in filtered
    ensures (exists i :: 0 <= i < |Stages| && x in Board(filtered)[i]) <==> x.stage in Stages
    ensures forall i :: 0 <= i < |Stages| ==> (x in Board(filtered)[i] <==> Stages[i] == x.stage)
  {
    forall i | 0 <= i < |Stages|
      ensures x in Board(filtered)[i] <==> Stages[i] == x.stage
    {
      ColumnMembers(filtered, Stages[i], x);
    }
  }

  lemma RejectedOnNoColumn(filtered: seq<Candidate>, x: Candidate)
    requires x in filtered && x.stage == "Rejected"
    ensures forall i :: 0 <= i < |Stages| ==> x !in Board(filtered)[i]
  {
    OnBoardIffStageListed(filtered, x);
  }

  /** The sum of the column sizes over a list of distinct stages. */
  function ColumnSizes(list: seq<Candidate>, stages: seq<string>): nat {
    if stages == [] then 0 else |Column(list, stages[0])| + ColumnSizes(list, stages[1..])
  }

  function Unlisted(list: seq<Candidate>, stages: seq<string>): nat {
    if list == [] then 0 else (if list[0].stage in stages then 0 else 1) + Unlisted(list[1..], stages)
  }

  lemma {:induction false} ColumnSizesCons(c: Candidate, rest: seq<Candidate>, stages: seq<string>)
    requires forall i, j :: 0 <= i < j < |stages| ==> stages[i] != stages[j]
    ensures ColumnSizes([c] + rest, stages) == ColumnSizes(rest, stages) + (if c.stage in stages then 1 else 0)
  {
    if stages != [] {
      assert ([c] + rest)[1..] == rest;
      var tail := stages[1..];
      assert forall i, j :: 0 <= i < j < |tail| ==> tail[i] != tail[j] by {
        forall i, j | 0 <= i < j < |tail|
          ensures tail[i] != tail[j]
        {
          assert tail[i] == stages[i + 1] && tail[j] == stages[j + 1];
        }
      }
      ColumnSizesCons(c, rest, tail);
      assert c.stage in stages <==> c.stage == stages[0] || c.stage in tail by {
        assert stages == [stages[0]] + tail;
      }
      if c.stage == stages[0] {
        assert c.stage !in tail by {
          forall j | 0 <= j < |tail|
            ensures tail[j] != c.stage
          {
            assert tail[j] == stages[j + 1];
          }
        }
      }
    }
  }

  lemma {:induction false} BoardCountsEveryListedCandidate(list: seq<Candidate>, stages: seq<string>)
    requires forall i, j :: 0 <= i < j < |stages| ==> stages[i] != stages[j]
    ensures ColumnSizes(list, stages) + Unlisted(list, stages) == |list|
  {
    if list != [] {
      BoardCountsEveryListedCandidate(list[1..], stages);
      ColumnSizesCons(list[0], list[1..], stages);
      assert list == [list[0]] + list[1..];
    } else {
      NoCandidatesEmptyColumns(stages);
    }
  }

  lemma {:induction false} NoCandidatesEmptyColumns(stages: seq<string>)
    ensures ColumnSizes([], stages) == 0
  {
    if stages != [] {
      NoCandidatesEmptyColumns(stages[1..]);
    }
  }

  /** The column headers add up to the number of filtered candidates whose
      stage is a pipeline stage: nobody is counted twice or lost. */
  lemma BoardHeadersAddUp(filtered: seq<Candidate>)
    ensures ColumnSizes(filtered, Stages) + Unlisted(filtered, Stages) == |filtered|
  {
    BoardCountsEveryListedCandidate(filtered, Stages);
  }

  datatype Location = Location(droppableId: string, index: nat)

  /** `handleOnDragEnd`: the `updateCandidateStage` call it makes, if any. */
  function HandleOnDragEnd(source: Location, destination: Option<Location>, draggableId: Id): (r: Option<(Id, string)>)
    ensures r.None? <==> destination.None? || destination.value == source
    ensures r.Some? ==> r.value == (draggableId, destination.value.droppableId)
  {
    if destination.None? || (destination.value.droppableId == source.droppableId && destination.value.index == source.index)
    then None
    else Some((draggableId, destination.value.droppableId))
  }

  /** A reorder inside one column still calls the stage update. */
  lemma SameColumnReorderStillUpdates(column: string, from: nat, to: nat, draggableId: Id)
    requires from != to
    ensures HandleOnDragEnd(Location(column, from), Some(Location(column, to)), draggableId) == Some((draggableId, column))
  {
  }
}
