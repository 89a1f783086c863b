/** The records the store and the mock server hold for jobs and candidates. */
module Records {
  import opened Common

  /** A job posting. `order` is the display rank (lists are read back in
      ascending `order`); `createdAt` is set only on seeded jobs. */
  datatype Job = Job(
    id: Id,
    title: string,
    slug: string,
    status: string,
    order: int,
    tags: seq<string>,
    createdAt: Option<int>)

  /** One entry of a candidate's hiring timeline; dates are timestamps. */
  datatype TimelineEntry = TimelineEntry(stage: string, date: int)

  /** A candidate. `jobId` is a weak reference to a job (only the seeded
      store sets it); `notes` is only ever the empty list in this code base. */
  datatype Candidate = Candidate(
    id: Id,
    name: string,
    email: string,
    stage: string,
    jobId: Option<Id>,
    timeline: seq<TimelineEntry>,
    notes: seq<string>)

  /** The pipeline columns of the kanban board. */
  const Stages: seq<string> := ["Applied", "Screening", "Interview", "Offer", "Hired"]
}
