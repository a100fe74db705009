/**
 The nine example applications the tracker starts from. Their ids come from
 `uuidv4()` when the module loads, so they are a parameter here.
 */
module Seed {
  import opened Wrappers
  import opened Jobs
  import opened Views

  /** Nine pairwise different ids. */
  predicate SeedIds(ids: seq<Id>)
  {
    |ids| == 9 && forall i, j :: 0 <= i < j < |ids| ==> ids[i] != ids[j]
  }

  /** `initialData`. */
  function InitialData(ids: seq<Id>): (r: seq<Job>)
    requires SeedIds(ids)
    ensures |r| == 9 && UniqueIds(r) && Filled(r)
  {
    [ Job(ids[0], "Spotify", "Frontend Engineer", Some("Stockholm"), Some("Hybrid"), "Applied",
          Some("$85,000"), "2025-07-21", Some("Via referral"),
          Some("https://jobs.spotify.com/frontend-engineer")),
      Job(ids[1], "Monzo", "UI Developer", Some("London"), Some("Remote"), "Interviewing",
          Some("£65,000"), "2025-07-15", Some("First round done"),
          Some("https://monzo.com/careers/ui-developer")),
      Job(ids[2], "Revolut", "Frontend Developer", Some("London"), Some("Onsite"), "Rejected",
          Some("£70,000"), "2025-06-30", Some("No response"), None),
      Job(ids[3], "Netflix", "Senior React Developer", Some("Los Angeles"), Some("Remote"), "Applied",
          Some("$120,000"), "2025-07-20", Some("Applied through LinkedIn"),
          Some("https://jobs.netflix.com/senior-react-dev")),
      Job(ids[4], "Stripe", "Full Stack Engineer", Some("San Francisco"), Some("Hybrid"), "Offer",
          Some("$140,000"), "2025-07-10", Some("Final round scheduled"),
          Some("https://stripe.com/jobs/fullstack")),
      Job(ids[5], "Shopify", "JavaScript Developer", Some("Toronto"), Some("Remote"), "Interviewing",
          Some("CAD $90,000"), "2025-07-18", Some("Technical interview next week"), None),
      Job(ids[6], "Airbnb", "Frontend Engineer", Some("Amsterdam"), Some("Onsite"), "Applied",
          Some("€75,000"), "2025-07-19", Some("Waiting for response"),
          Some("https://careers.airbnb.com/frontend")),
      Job(ids[7], "Microsoft", "Software Engineer II", Some("Seattle"), Some("Hybrid"), "Interviewing",
          Some("$110,000"), "2025-07-12", Some("Phone screen completed"), None),
      Job(ids[8], "GitHub", "Web Developer", Some("Berlin"), Some("Remote"), "Applied",
          Some("€80,000"), "2025-07-17", Some("Portfolio submitted"),
          Some("https://github.com/careers")) ]
  }

  /** The statuses of the seed records, in order. */
  lemma SeedStatuses(ids: seq<Id>)
    requires SeedIds(ids)
    ensures Statuses(InitialData(ids)) == SeedStatusList
  {
    var jobs := InitialData(ids);
    assert jobs[0].status == "Applied" && jobs[1].status == "Interviewing";
    assert jobs[2].status == "Rejected" && jobs[3].status == "Applied";
    assert jobs[4].status == "Offer" && jobs[5].status == "Interviewing";
    assert jobs[6].status == "Applied" && jobs[7].status == "Interviewing";
    assert jobs[8].status == "Applied";
  }

  /** The statuses of the seed list, in order. */
  const SeedStatusList := ["Applied", "Interviewing", "Rejected", "Applied", "Offer",
                           "Interviewing", "Applied", "Interviewing", "Applied"]

  /** Filtering the seed list by status Offer shows the Stripe application alone. */
  lemma SeedOffers(ids: seq<Id>)
    requires SeedIds(ids)
    ensures FilteredJobs(InitialData(ids), DefaultFilters.(status := "Offer")) == [InitialData(ids)[4]]
  {
    SeedStatuses(ids);
    OnlyFifthIsOffer(InitialData(ids));
  }

  lemma OnlyFifthIsOffer(jobs: seq<Job>)
    requires Statuses(jobs) == SeedStatusList
    ensures FilteredJobs(jobs, DefaultFilters.(status := "Offer")) == [jobs[4]]
  {
    var f := DefaultFilters.(status := "Offer");
    Lists.KeepSelects(jobs, Matcher(f));
    var idx := Lists.KeptIndices(jobs, Matcher(f));
    OnlyFifthStatusIsOffer();
    forall i | 0 <= i < |jobs| ensures i in idx <==> i == 4 {
      assert Matcher(f)(jobs[i]) <==> jobs[i].status == "Offer";
      assert jobs[i].status == SeedStatusList[i];
    }
    Lists.SelectsSingle(idx, FilteredJobs(jobs, f), jobs, 4);
  }

  lemma OnlyFifthStatusIsOffer()
    ensures forall i :: 0 <= i < |SeedStatusList| ==> (SeedStatusList[i] == "Offer" <==> i == 4)
  {
    forall i | 0 <= i < |SeedStatusList| && i != 4 ensures SeedStatusList[i] != "Offer" {
      assert |SeedStatusList[i]| != |"Offer"|;
    }
  }

  /** The dashboard of the seed list: nine jobs, four applied, three interviewing, one offer, one rejected. */
  lemma SeedStats(ids: seq<Id>)
    requires SeedIds(ids)
    ensures StatsOf(InitialData(ids)) == Stats(9, 4, 3, 1, 1)
  {
    SeedStatuses(ids);
    StatsOfSeedStatuses(InitialData(ids));
  }

  lemma StatsOfSeedStatuses(jobs: seq<Job>)
    requires Statuses(jobs) == SeedStatusList
    ensures StatsOf(jobs) == Stats(9, 4, 3, 1, 1)
  {
    CountStatusIsMultiplicity(jobs, "Applied");
    CountStatusIsMultiplicity(jobs, "Interviewing");
    CountStatusIsMultiplicity(jobs, "Offer");
    CountStatusIsMultiplicity(jobs, "Rejected");
    SeedStatusCounts();
  }

  lemma SeedStatusCounts()
    ensures multiset(SeedStatusList)["Applied"] == 4 && multiset(SeedStatusList)["Interviewing"] == 3
    ensures multiset(SeedStatusList)["Offer"] == 1 && multiset(SeedStatusList)["Rejected"] == 1
  {
  }
}
