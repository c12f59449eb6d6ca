/** The discovery half of `workOnConfig` (dump.js): the two searches run
    with the resolved settings, and every discovered page is queued with
    the directory it will be exported to. */
module Workflow {
  import opened Wrappers
  import opened Paths
  import opened Content
  import opened Layout
  import opened Config
  import opened Discovery

  /** The data handed to the export pool for one page. */
  datatype Job = Job(page: ContentItem, destDir: string)

  /** The jobs for queued entries, in queue order. */
  function QueuedJobs(entries: seq<Entry>, datedRoot: string, sanitize: string -> string): (jobs: seq<Job>)
    ensures |jobs| == |entries|
    ensures forall i | 0 <= i < |jobs| :: jobs[i].page == entries[i].page
  {
    seq(|entries|, i requires 0 <= i < |entries| =>
      Job(entries[i].page, DestDir(datedRoot, entries[i].page, entries[i].root, sanitize)))
  }

  /** Every job writes below the dated root, into the directory its entry's
      root and title select. */
  lemma QueuedJobsLayout(entries: seq<Entry>, datedRoot: string, sanitize: string -> string)
    ensures var jobs := QueuedJobs(entries, datedRoot, sanitize);
      forall i | 0 <= i < |jobs| ::
        Split(jobs[i].destDir) == Split(datedRoot) + Split(RelativeOutputDir(entries[i].page, entries[i].root, sanitize))
  {
    var jobs := QueuedJobs(entries, datedRoot, sanitize);
    forall i | 0 <= i < |jobs|
      ensures Split(jobs[i].destDir) == Split(datedRoot) + Split(RelativeOutputDir(entries[i].page, entries[i].root, sanitize))
    {
      assert jobs[i].destDir == DestDir(datedRoot, entries[i].page, entries[i].root, sanitize);
      DestDirSegments(datedRoot, entries[i].page, entries[i].root, sanitize);
    }
  }

  /** What one config's run queues: the jobs, and whether the queueing
      loops threw after a failed search. Such a throw leaves `main` and
      ends the whole run, so no sweep and no later config follow it. */
  datatype Plan = Plan(jobs: seq<Job>, threw: bool)

  /** The searches and queueing of one run started at `isoTimestamp`. */
  function PlanExports(settings: Settings, isoTimestamp: string, sanitize: string -> string, search: Search): Plan {
    var queue := Discover(search, settings.cqlSingle, settings.cqlTree);
    Plan(QueuedJobs(queue.entries, DatedRoot(settings.outputDir, isoTimestamp), sanitize), queue.threw)
  }

  /** The end-to-end case: two tagged pages and one tree root with two
      children give five jobs, the pages first, then the root, then its
      children in the root's directory. */
  lemma FiveJobsScenario(settings: Settings, isoTimestamp: string, sanitize: string -> string, search: Search,
                         s1: ContentItem, s2: ContentItem, root: ContentItem, c1: ContentItem, c2: ContentItem)
    requires search(settings.cqlSingle) == Some([s1, s2])
    requires search(settings.cqlTree) == Some([root])
    requires search(ChildCql(root)) == Some([c1, c2])
    ensures var plan := PlanExports(settings, isoTimestamp, sanitize, search);
      var datedRoot := DatedRoot(settings.outputDir, isoTimestamp);
      && !plan.threw
      && |plan.jobs| == 5
      && [plan.jobs[0].page, plan.jobs[1].page, plan.jobs[2].page, plan.jobs[3].page, plan.jobs[4].page]
         == [s1, s2, root, c1, c2]
      && plan.jobs[0].destDir == DestDir(datedRoot, s1, None, sanitize)
      && plan.jobs[1].destDir == DestDir(datedRoot, s2, None, sanitize)
      && plan.jobs[2].destDir == DestDir(datedRoot, root, None, sanitize)
      && plan.jobs[3].destDir == DestDir(datedRoot, c1, Some(root), sanitize)
      && plan.jobs[4].destDir == DestDir(datedRoot, c2, Some(root), sanitize)
  {
    var queue := Discover(search, settings.cqlSingle, settings.cqlTree);
    var datedRoot := DatedRoot(settings.outputDir, isoTimestamp);
    var jobs := QueuedJobs(queue.entries, datedRoot, sanitize);
    assert queue == Queue([Entry(s1, None), Entry(s2, None), Entry(root, None),
                           Entry(c1, Some(root)), Entry(c2, Some(root))], false) by {
      FiveExportsScenario(search, settings.cqlSingle, settings.cqlTree, s1, s2, root, c1, c2);
    }
    assert PlanExports(settings, isoTimestamp, sanitize, search) == Plan(jobs, false);
  }
}
