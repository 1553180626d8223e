/**
 * The job feed: the case-insensitive search filter, the category chips of
 * a card, the empty-state and count label of the list, and the post-job
 * dialog whose handler parses the comma-separated categories, posts, reloads
 * the list and resets the form.
 */
module Jobs {
  import opened Wrappers
  import opened Text
  import opened Seqs

  /** A job as `GET /jobs` returns it; `category` is optional. */
  datatype Job = Job(
    id: int,
    title: string,
    description: string,
    category: Option<seq<string>>,
    createdAt: string,
    closedAt: string)

  // ---------------------------------------------------------------------
  // Search
  // ---------------------------------------------------------------------

  /** The search test: the lower-cased term occurs in the lower-cased title or description. */
  predicate Matches(job: Job, term: string) {
    Includes(Lower(job.title), Lower(term)) || Includes(Lower(job.description), Lower(term))
  }

  /** `filteredJobs`: `jobs.filter(job => Matches(job, searchTerm))`. */
  function FilterJobs(jobs: seq<Job>, term: string): seq<Job>
  {
    Filter(jobs, job => Matches(job, term))
  }

  /** Matches spelled out: the term occurs, ignoring ASCII case, at some position of the title or the description. */
  lemma MatchesIff(job: Job, term: string)
    ensures Matches(job, term) <==>
              (exists i :: OccursAt(Lower(job.title), Lower(term), i)) ||
              (exists i :: OccursAt(Lower(job.description), Lower(term), i))
  {
    IncludesIff(Lower(job.title), Lower(term));
    IncludesIff(Lower(job.description), Lower(term));
  }

  /** The case of the search term does not matter. */
  lemma MatchesIgnoresTermCase(job: Job, term: string)
    ensures Matches(job, Lower(term)) == Matches(job, term)
  {
    LowerProperties(term);
  }

  /**
   * The filtered list is the jobs at the positions idx: idx is strictly
   * increasing (order is kept), and a position is in idx exactly when the
   * job there matches (nothing matching is lost, nothing else is kept).
   */
  lemma FilterSelectsMatches(jobs: seq<Job>, term: string) returns (idx: seq<nat>)
    ensures |idx| == |FilterJobs(jobs, term)|
    ensures forall k :: 0 <= k < |idx| ==> idx[k] < |jobs| && FilterJobs(jobs, term)[k] == jobs[idx[k]]
    ensures forall k, l :: 0 <= k < l < |idx| ==> idx[k] < idx[l]
    ensures forall i :: 0 <= i < |jobs| ==> (i in idx <==> Matches(jobs[i], term))
  {
    idx := FilterPositions(jobs, job => Matches(job, term));
  }

  /** A job is in the filtered list exactly when it is in the list and matches. */
  lemma FilterMembersMatch(jobs: seq<Job>, term: string)
    ensures forall j :: j in FilterJobs(jobs, term) <==> j in jobs && Matches(j, term)
  {
    FilterMembers(jobs, job => Matches(job, term));
  }

  /** An empty search keeps the whole list. */
  lemma FilterEmptyTerm(jobs: seq<Job>)
    ensures FilterJobs(jobs, "") == jobs
  {
    forall j | j in jobs ensures Matches(j, "") {
      IncludesEmpty(Lower(j.title));
    }
    FilterKeepsAll(jobs, job => Matches(job, ""));
  }

  /** Searching the filtered list again with the same term changes nothing. */
  lemma FilterJobsIdempotent(jobs: seq<Job>, term: string)
    ensures FilterJobs(FilterJobs(jobs, term), term) == FilterJobs(jobs, term)
  {
    FilterIdempotent(jobs, job => Matches(job, term));
  }

  // ---------------------------------------------------------------------
  // What the feed shows
  // ---------------------------------------------------------------------

  /** The three states of the list: the loading placeholder, "No jobs found", or the cards. */
  datatype FeedView = LoadingPlaceholder | NoMatches | Cards(shown: seq<Job>)

  function Feed(jobs: seq<Job>, term: string): FeedView
  {
    if |jobs| == 0 then LoadingPlaceholder
    else
      var filtered := FilterJobs(jobs, term);
      if |filtered| == 0 then NoMatches else Cards(filtered)
  }

  /** "No jobs found" appears exactly when there are jobs and none of them matches. */
  lemma FeedNoMatchesIff(jobs: seq<Job>, term: string)
    ensures Feed(jobs, term) == NoMatches <==>
              jobs != [] && forall j :: j in jobs ==> !Matches(j, term)
  {
    FilterMembersMatch(jobs, term);
    if jobs != [] && FilterJobs(jobs, term) != [] {
      assert FilterJobs(jobs, term)[0] in FilterJobs(jobs, term);
    }
  }

  /** With an empty search box every loaded job has a card. */
  lemma FeedEmptyTermShowsAll(jobs: seq<Job>)
    requires jobs != []
    ensures Feed(jobs, "") == Cards(jobs)
  {
    FilterEmptyTerm(jobs);
  }

  /** The line under the heading: "{n} job available" for one job, "{n} jobs available" otherwise. */
  function CountLabel(n: nat): string
  {
    NatToString(n) + " " + (if n == 1 then "job" else "jobs") + " available"
  }

  /** The singular appears exactly for one job, and different counts give different labels. */
  lemma CountLabelNoun(m: nat, n: nat)
    ensures CountLabel(n) == "1 job available" <==> n == 1
    ensures n != 1 ==> CountLabel(n) == NatToString(n) + " jobs available"
    ensures CountLabel(m) == CountLabel(n) ==> m == n
  {
    var suffix := " jobs available";
    assert CountLabel(1) == "1 job available";
    if n != 1 {
      assert CountLabel(n) == NatToString(n) + suffix;
      assert |CountLabel(n)| > |"1 job available"|;
    }
    if m != 1 {
      assert CountLabel(m) == NatToString(m) + suffix;
      assert |CountLabel(m)| > |"1 job available"|;
    }
    if CountLabel(m) == CountLabel(n) && m != n {
      if m != 1 && n != 1 {
        var sm, sn := NatToString(m), NatToString(n);
        assert sm + suffix == sn + suffix;
        assert |sm| == |sn|;
        assert sm == (sm + suffix)[..|sm|] == (sn + suffix)[..|sn|] == sn;
        NatToStringInjective(m, n);
      }
    }
  }

  /** The category row of a card: up to three chips, then "+N more" when N > 0. */
  datatype ChipRow = NoChipRow | ChipRow(chips: seq<string>, more: nat)

  function CategoryChips(category: Option<seq<string>>): (row: ChipRow)
    ensures row.ChipRow? <==> category.Some? && |category.value| > 0
    ensures row.ChipRow? ==> |row.chips| <= 3 && row.chips <= category.value
    ensures row.ChipRow? ==> |row.chips| + row.more == |category.value|
    ensures row.ChipRow? ==> (row.more > 0 <==> |category.value| > 3)
    ensures row.ChipRow? && |category.value| <= 3 ==> row.chips == category.value && row.more == 0
    ensures row.ChipRow? && |category.value| > 3 ==>
              row.chips == category.value[..3] && row.more == |category.value| - 3
  {
    match category
    case None => NoChipRow
    case Some(cats) =>
      if |cats| == 0 then NoChipRow
      else if |cats| > 3 then ChipRow(cats[..3], |cats| - 3)
      else ChipRow(cats, 0)
  }

  // ---------------------------------------------------------------------
  // The page's state and handlers
  // ---------------------------------------------------------------------

  /** The six inputs of the post-job dialog. */
  datatype JobForm = JobForm(
    title: string,
    description: string,
    createdAt: string,
    closedAt: string,
    category: string,
    userId: string)

  const EMPTY_FORM := JobForm("", "", "", "", "", "")

  /** The body of `POST /jobs` (its `embeddings` field is always null and is not represented). */
  datatype JobPayload = JobPayload(
    title: string,
    description: string,
    createdAt: string,
    closedAt: string,
    category: seq<string>,
    userId: string)

  /** How a post ends: both requests succeed and the list is reloaded, or something throws. */
  datatype PostOutcome = Posted(refreshed: seq<Job>) | PostFailed

  /** The body `handlePostJob` builds from the form. */
  function Payload(form: JobForm): (p: JobPayload)
    ensures forall c :: c in p.category ==> c != "" && IsTrimmed(c) && ',' !in c
    ensures p.title == form.title && p.description == form.description && p.userId == form.userId
  {
    ParseCommaListClean(form.category);
    JobPayload(form.title, form.description, form.createdAt, form.closedAt,
               ParseCommaList(form.category), form.userId)
  }

  class JobsPage {
    var jobs: seq<Job>
    var searchTerm: string
    var isDialogOpen: bool
    var loading: bool
    var title: string
    var description: string
    var createdAt: string
    var closedAt: string
    var category: string
    var userId: string

    function Form(): JobForm
      reads this
    {
      JobForm(title, description, createdAt, closedAt, category, userId)
    }

    constructor ()
      ensures jobs == [] && searchTerm == "" && !isDialogOpen && !loading
      ensures Form() == EMPTY_FORM
    {
      jobs, searchTerm, isDialogOpen, loading := [], "", false, false;
      title, description, createdAt, closedAt, category, userId := "", "", "", "", "", "";
    }

    /** The initial `GET /jobs`: the list is replaced on success and kept on failure. */
    method LoadJobs(fetched: Option<seq<Job>>)
      modifies this
      ensures jobs == (if fetched.Some? then fetched.value else old(jobs))
      ensures searchTerm == old(searchTerm) && isDialogOpen == old(isDialogOpen)
      ensures loading == old(loading) && Form() == old(Form())
    {
      if fetched.Some? {
        jobs := fetched.value;
      }
    }

    /** Typing in the search box. */
    method SetSearchTerm(term: string)
      modifies this
      ensures searchTerm == term && jobs == old(jobs)
      ensures isDialogOpen == old(isDialogOpen) && loading == old(loading) && Form() == old(Form())
    {
      searchTerm := term;
    }

    /** "Post a Job" (true) and the dialog's close and cancel buttons (false). */
    method SetDialogOpen(open: bool)
      modifies this
      ensures isDialogOpen == open && jobs == old(jobs) && searchTerm == old(searchTerm)
      ensures loading == old(loading) && Form() == old(Form())
    {
      isDialogOpen := open;
    }

    /** The `onChange` handlers of the dialog's six inputs. */
    method EditForm(form: JobForm)
      modifies this
      ensures Form() == form
      ensures jobs == old(jobs) && searchTerm == old(searchTerm)
      ensures isDialogOpen == old(isDialogOpen) && loading == old(loading)
    {
      title, description, createdAt, closedAt, category, userId :=
        form.title, form.description, form.createdAt, form.closedAt, form.category, form.userId;
    }

    /**
     * `handlePostJob`. The body returned is what is sent; on success the
     * list becomes the reloaded one, the form is emptied and the dialog
     * closed; on failure only `loading` changes. Either way `loading` ends false.
     */
    method PostJob(outcome: PostOutcome) returns (payload: JobPayload)
      modifies this
      ensures payload == Payload(old(Form()))
      ensures !loading && searchTerm == old(searchTerm)
      ensures outcome.Posted? ==> jobs == outcome.refreshed && Form() == EMPTY_FORM && !isDialogOpen
      ensures outcome.PostFailed? ==>
                jobs == old(jobs) && Form() == old(Form()) && isDialogOpen == old(isDialogOpen)
    {
      loading := true;
      var categoryArray := ParseCommaList(category);
      payload := JobPayload(title, description, createdAt, closedAt, categoryArray, userId);
      match outcome {
        case Posted(refreshed) =>
          jobs := refreshed;
          title := "";
          description := "";
          createdAt := "";
          closedAt := "";
          category := "";
          userId := "";
          isDialogOpen := false;
        case PostFailed =>
      }
      loading := false;
    }
  }
}
