/**
 The values the tracker derives from its record list on every render: the
 filtered list, the sorted distinct locations and the dashboard counts.
 */
module Views {
  import opened Wrappers
  import opened Lists
  import opened Text
  import opened Sorting
  import opened Jobs

  /** The four filter controls: status, work style, location and a search text. */
  datatype Filters = Filters(status: string, workStyle: string, location: string, search: string)

  /** The `name` attribute of a filter control. */
  datatype FilterField = StatusFilter | WorkStyleFilter | LocationFilter | SearchFilter

  /** The initial filters: every control on All, the search empty. */
  const DefaultFilters := Filters("All", "All", "All", "")

  /** `filters[name]`. */
  function GetFilter(f: Filters, field: FilterField): string
  {
    match field
    case StatusFilter => f.status
    case WorkStyleFilter => f.workStyle
    case LocationFilter => f.location
    case SearchFilter => f.search
  }

  /** `{ ...filters, [name]: value }`. */
  function SetFilter(f: Filters, field: FilterField, value: string): (r: Filters)
    ensures GetFilter(r, field) == value
    ensures forall other :: other != field ==> GetFilter(r, other) == GetFilter(f, other)
  {
    match field
    case StatusFilter => f.(status := value)
    case WorkStyleFilter => f.(workStyle := value)
    case LocationFilter => f.(location := value)
    case SearchFilter => f.(search := value)
  }

  /** The case-insensitive `text.includes(part)` the filter uses. */
  predicate Mentions(text: string, part: string)
  {
    Contains(Lower(text), Lower(part))
  }

  /** The record passes each of the four criteria. */
  predicate Matches(job: Job, f: Filters)
  {
    && (f.status == "All" || job.status == f.status)
    && (f.workStyle == "All" || Or(job.workStyle, "Remote") == f.workStyle)
    && (f.location == "All" || Mentions(Or(job.location, ""), f.location) || f.location == "")
    && (f.search == ""
        || Mentions(job.company, f.search)
        || Mentions(job.title, f.search)
        || Mentions(Or(job.location, ""), f.search))
  }

  /** `part` occurs in `text` at some position, ignoring case. */
  ghost predicate Finds(text: string, part: string)
  {
    exists i: nat :: OccursAt(Lower(text), Lower(part), i)
  }

  /** The case-insensitive `includes` finds `part` exactly where it occurs, ignoring case. */
  lemma MentionsIffFinds(text: string, part: string)
    ensures Mentions(text, part) <==> Finds(text, part)
  {
    ContainsIffOccurs(Lower(text), Lower(part));
  }

  /** An occurrence with the same case is found too. */
  lemma MentionsExact(text: string, part: string, i: nat)
    requires OccursAt(text, part, i)
    ensures Mentions(text, part)
  {
    assert OccursAt(Lower(text), Lower(part), i) by {
      assert Lower(text)[i..i + |part|] == Lower(part) by {
        forall k | 0 <= k < |part| ensures Lower(text)[i..i + |part|][k] == Lower(part)[k] {
          assert text[i + k] == part[k];
        }
      }
    }
    MentionsIffFinds(text, part);
  }

  /**
   The four criteria, with each case-insensitive `includes` read as an
   occurrence at some position: a record passes when its status is the chosen
   one, its work style (Remote when missing) is the chosen one, the chosen
   location occurs in its location, and the search text occurs in its
   company, title or location, each criterion also passing when it is left
   on All (or empty).
   */
  lemma MatchesByOccurrence(job: Job, f: Filters)
    ensures Matches(job, f) <==>
              && (f.status == "All" || job.status == f.status)
              && (f.workStyle == "All" || Or(job.workStyle, "Remote") == f.workStyle)
              && (f.location == "All" || f.location == "" || Finds(Or(job.location, ""), f.location))
              && (f.search == ""
                  || Finds(job.company, f.search)
                  || Finds(job.title, f.search)
                  || Finds(Or(job.location, ""), f.search))
  {
    MentionsIffFinds(Or(job.location, ""), f.location);
    MentionsIffFinds(job.company, f.search);
    MentionsIffFinds(job.title, f.search);
    MentionsIffFinds(Or(job.location, ""), f.search);
  }

  function Matcher(f: Filters): Job -> bool
  {
    (job: Job) => Matches(job, f)
  }

  /** `filteredJobs`: the records that pass every criterion. */
  function FilteredJobs(jobs: seq<Job>, f: Filters): (r: seq<Job>)
    ensures |r| <= |jobs|
    ensures forall k :: 0 <= k < |r| ==> r[k] in jobs && Matches(r[k], f)
    ensures forall i :: 0 <= i < |jobs| && Matches(jobs[i], f) ==> jobs[i] in r
  {
    Keep(jobs, Matcher(f))
  }

  /**
   The filtered list is `jobs` read at increasing positions (filtering never
   reorders), and a position is read if and only if its record matches.
   */
  lemma FilteredSelects(jobs: seq<Job>, f: Filters)
    ensures exists idx :: Selects(idx, FilteredJobs(jobs, f), jobs) &&
              forall i :: 0 <= i < |jobs| ==> (i in idx <==> Matches(jobs[i], f))
  {
    KeepSelects(jobs, Matcher(f));
    assert Selects(KeptIndices(jobs, Matcher(f)), FilteredJobs(jobs, f), jobs);
  }

  /** With the initial filters every record is shown, in order. */
  lemma {:induction false} FilteredDefaults(jobs: seq<Job>)
    ensures FilteredJobs(jobs, DefaultFilters) == jobs
  {
    KeepAll(jobs, Matcher(DefaultFilters));
  }

  /** A status other than All keeps only records with exactly that status. */
  lemma FilteredStatus(jobs: seq<Job>, f: Filters)
    requires f.status != "All"
    ensures forall k :: 0 <= k < |FilteredJobs(jobs, f)| ==> FilteredJobs(jobs, f)[k].status == f.status
  {
  }

  /**
   A work style other than All keeps records with that style; a record with
   no style counts as Remote.
   */
  lemma FilteredWorkStyle(jobs: seq<Job>, f: Filters)
    requires f.workStyle != "All"
    ensures forall k :: 0 <= k < |FilteredJobs(jobs, f)| ==>
              var ws := FilteredJobs(jobs, f)[k].workStyle;
              ws == Some(f.workStyle) || (f.workStyle == "Remote" && (ws == None || ws == Some("")))
  {
  }

  /** Filtering the filtered list again changes nothing. */
  lemma FilteredIdempotent(jobs: seq<Job>, f: Filters)
    ensures FilteredJobs(FilteredJobs(jobs, f), f) == FilteredJobs(jobs, f)
  {
    KeepIdempotent(jobs, Matcher(f));
  }

  /** The search text is case-insensitive: folding it first selects the same records. */
  lemma SearchIgnoresCase(job: Job, f: Filters)
    ensures Matches(job, f.(search := Lower(f.search))) == Matches(job, f)
  {
    LowerIdempotent(f.search);
  }

  /**
   The Remote filter keeps a record without a work style, but editing it
   fills the style from its location, so saving the edit unchanged takes a
   record with a location out of the Remote view.
   */
  lemma LegacyStyleAfterEdit(job: Job, f: Filters)
    requires job.workStyle == None && job.location.Some? && job.location.value !in {"", "Remote"}
    requires f == DefaultFilters.(workStyle := "Remote")
    ensures Matches(job, f) && !Matches(Record(job.id, Draft(job)), f)
  {
  }

  /** `jobs.map(job => job.location).filter(Boolean)`: the non-empty locations. */
  function PresentLocations(jobs: seq<Job>): (r: seq<string>)
    ensures forall l :: l in r <==> l != "" && exists i :: 0 <= i < |jobs| && jobs[i].location == Some(l)
  {
    if jobs == [] then []
    else
      var rest := PresentLocations(jobs[1..]);
      assert forall i :: 0 < i < |jobs| ==> jobs[i] == jobs[1..][i - 1];
      if jobs[0].location.Some? && jobs[0].location.value != ""
      then [jobs[0].location.value] + rest
      else rest
  }

  /**
   `uniqueLocations`: the location choices are strictly increasing (so none
   repeats), none is empty, and they are exactly the non-empty locations of
   the records.
   */
  function UniqueLocations(jobs: seq<Job>): (r: seq<string>)
    ensures StrictlySorted(r)
    ensures Distinct(r)
    ensures "" !in r
    ensures forall l :: l in r <==> l != "" && exists i :: 0 <= i < |jobs| && jobs[i].location == Some(l)
  {
    var r := Sort(Dedup(PresentLocations(jobs)));
    StrictlySortedIsDistinct(r);
    r
  }

  /** The location list is the only strictly sorted list of exactly those locations. */
  lemma UniqueLocationsUnique(jobs: seq<Job>, choices: seq<string>)
    requires StrictlySorted(choices)
    requires forall l :: l in choices <==>
               l != "" && exists i :: 0 <= i < |jobs| && jobs[i].location == Some(l)
    ensures choices == UniqueLocations(jobs)
  {
    StrictlySortedUnique(choices, UniqueLocations(jobs));
  }

  /** The dashboard counts. */
  datatype Stats = Stats(total: nat, applied: nat, interviewing: nat, offers: nat, rejected: nat)

  function HasStatus(status: string): Job -> bool
  {
    (job: Job) => job.status == status
  }

  /** `jobs.filter(job => job.status === status).length`. */
  function CountStatus(jobs: seq<Job>, status: string): (n: nat)
    ensures n <= |jobs|
    ensures n == 0 <==> forall i :: 0 <= i < |jobs| ==> jobs[i].status != status
  {
    var r := Keep(jobs, HasStatus(status));
    assert r != [] ==> r[0].status == status && r[0] in jobs;
    |r|
  }

  /** `stats`. */
  function StatsOf(jobs: seq<Job>): Stats
  {
    Stats(|jobs|, CountStatus(jobs, "Applied"), CountStatus(jobs, "Interviewing"),
          CountStatus(jobs, "Offer"), CountStatus(jobs, "Rejected"))
  }

  /** The statuses of the records, in order. */
  function Statuses(jobs: seq<Job>): (r: seq<string>)
    ensures |r| == |jobs|
    ensures forall i :: 0 <= i < |jobs| ==> r[i] == jobs[i].status
  {
    if jobs == [] then [] else [jobs[0].status] + Statuses(jobs[1..])
  }

  /** A count is the number of records that carry that status. */
  lemma {:induction false} CountStatusIsMultiplicity(jobs: seq<Job>, status: string)
    ensures CountStatus(jobs, status) == multiset(Statuses(jobs))[status]
  {
    if jobs != [] {
      CountStatusIsMultiplicity(jobs[1..], status);
      assert Statuses(jobs) == [jobs[0].status] + Statuses(jobs[1..]);
    }
  }

  /** A count is the length of the list the status filter shows. */
  lemma CountStatusIsFiltered(jobs: seq<Job>, status: string)
    requires status != "All"
    ensures CountStatus(jobs, status) == |FilteredJobs(jobs, DefaultFilters.(status := status))|
  {
    var f := DefaultFilters.(status := status);
    forall job ensures HasStatus(status)(job) == Matcher(f)(job) {
    }
    KeepSame(jobs, HasStatus(status), Matcher(f));
  }

  /** Two predicates that agree everywhere keep the same elements. */
  lemma {:induction false} KeepSame(jobs: seq<Job>, p: Job -> bool, q: Job -> bool)
    requires forall job :: p(job) == q(job)
    ensures Keep(jobs, p) == Keep(jobs, q)
  {
    if jobs != [] {
      KeepSame(jobs[1..], p, q);
    }
  }

  /** The statuses the form offers. */
  predicate KnownStatus(status: string)
  {
    status == "Applied" || status == "Interviewing" || status == "Offer" || status == "Rejected"
  }

  function StatusSum(s: Stats): nat
  {
    s.applied + s.interviewing + s.offers + s.rejected
  }

  /**
   `total` is the number of records; the four counts add up to at most the
   total, and to exactly the total if and only if every record has one of
   the four statuses.
   */
  lemma {:induction false} StatsSum(jobs: seq<Job>)
    ensures StatsOf(jobs).total == |jobs|
    ensures StatusSum(StatsOf(jobs)) <= StatsOf(jobs).total
    ensures StatusSum(StatsOf(jobs)) == StatsOf(jobs).total <==>
              forall i :: 0 <= i < |jobs| ==> KnownStatus(jobs[i].status)
  {
    if jobs != [] {
      StatsSum(jobs[1..]);
      var rest := jobs[1..];
      assert forall i :: 0 < i < |jobs| ==> jobs[i] == rest[i - 1];
    }
  }
}
