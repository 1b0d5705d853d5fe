/**
 * The list the notices page starts with, and the order in which the page
 * shows it on start.
 */
module NoticesList {
  import opened Filtering
  import opened Notices

  /** The notices the page starts with, in list order. */
  const NoticeList: seq<Notice> :=
    [ExamSchedule, HostelMaintenance, AavishkarRegistrations, PlacementDrive,
     LibraryTimings, MachineLearningWorkshop, SportsMeet]

  const ExamSchedule := Notice(1,
    "Mid-Semester Examination Schedule for Even Semester 2024",
    "The mid-semester examinations for the even semester 2024 " +
    "will commence from February 15, 2024. Students are requested " +
    "to check their respective timetables on the academic portal.",
    Academic, "Academic Section", 20240112, true, true)

  const HostelMaintenance := Notice(2,
    "Hostel Maintenance Work Notice",
    "Maintenance work will be carried out in Hostel Block A and B " +
    "on Sunday, January 14th. Water supply will be affected from " +
    "10 AM to 2 PM.",
    Hostel, "Hostel Warden", 20240111, true, false)

  const AavishkarRegistrations := Notice(3,
    "Aavishkar 2024 - Technical Fest Registrations Open",
    "Registrations for Aavishkar 2024, the annual technical fest " +
    "of NIT Goa, are now open. Register before January 20th to " +
    "avail early bird discounts.",
    Clubs, "Technical Club", 20240110, true, true)

  const PlacementDrive := Notice(4,
    "Campus Placement Drive - TCS",
    "TCS will be conducting campus placement drive on January " +
    "25th, 2024. Eligible students are requested to register on " +
    "the placement portal by January 18th.",
    Placement, "Training & Placement Cell", 20240109, false, false)

  const LibraryTimings := Notice(5,
    "Library Timings Extended for Exam Period",
    "The central library will remain open from 8 AM to 12 AM " +
    "(midnight) during the examination period starting from " +
    "February 10th.",
    General, "Library Admin", 20240108, false, false)

  const MachineLearningWorkshop := Notice(6,
    "Workshop on Machine Learning - Registration",
    "A two-day workshop on Machine Learning and AI will be " +
    "conducted on January 20-21. Register through the events " +
    "portal.",
    Academic, "CSE Department", 20240107, false, false)

  const SportsMeet := Notice(7,
    "Sports Meet 2024 Schedule Released",
    "The annual sports meet will be held from February 1-3, 2024. " +
    "Team registrations are open till January 25th.",
    Clubs, "Sports Council", 20240105, false, false)

  /** The ids of a list, in order: the keys the page renders the list by. */
  function Ids(notices: seq<Notice>): seq<int>
  {
    Map(notices, (n: Notice) => n.id)
  }

  /**
   * Seven notices listed newest first, of which only the first and third are
   * pinned: sorting moves the third up to second place and keeps the rest.
   */
  lemma SortSeven(a: Notice, b: Notice, c: Notice, d: Notice, e: Notice, f: Notice, g: Notice)
    requires a.isPinned && c.isPinned && a.date >= c.date
    requires !b.isPinned && !d.isPinned && !e.isPinned && !f.isPinned && !g.isPinned
    requires b.date >= d.date >= e.date >= f.date >= g.date
    ensures StableSort([a, b, c, d, e, f, g]) == [a, c, b, d, e, f, g]
  {
    StableSortSnoc([], a);
    assert [] + [a] == [a];
    StableSortSnoc([a], b);
    assert [a] + [b] == [a, b];
    StableSortSnoc([a, b], c);
    assert [a, b] + [c] == [a, b, c];
    assert [a, b][..1] == [a];
    StableSortSnoc([a, b, c], d);
    assert [a, b, c] + [d] == [a, b, c, d];
    StableSortSnoc([a, b, c, d], e);
    assert [a, b, c, d] + [e] == [a, b, c, d, e];
    StableSortSnoc([a, b, c, d, e], f);
    assert [a, b, c, d, e] + [f] == [a, b, c, d, e, f];
    StableSortSnoc([a, b, c, d, e, f], g);
    assert [a, b, c, d, e, f] + [g] == [a, b, c, d, e, f, g];
  }

  lemma StartPins()
    ensures ExamSchedule.isPinned && AavishkarRegistrations.isPinned
    ensures !HostelMaintenance.isPinned && !PlacementDrive.isPinned && !LibraryTimings.isPinned
    ensures !MachineLearningWorkshop.isPinned && !SportsMeet.isPinned
  {
  }

  lemma StartDates()
    ensures ExamSchedule.date >= AavishkarRegistrations.date
    ensures HostelMaintenance.date >= PlacementDrive.date >= LibraryTimings.date
    ensures LibraryTimings.date >= MachineLearningWorkshop.date >= SportsMeet.date
  {
  }

  lemma StartIds()
    ensures Ids([ExamSchedule, AavishkarRegistrations, HostelMaintenance, PlacementDrive,
      LibraryTimings, MachineLearningWorkshop, SportsMeet]) == [1, 3, 2, 4, 5, 6, 7]
  {
  }

  /** On start (empty search, "All") the page shows notices 1, 3, 2, 4, 5, 6, 7. */
  lemma NoticesOnStart()
    ensures Ids(StableSort(FilteredNotices(NoticeList, "", AllCategories))) == [1, 3, 2, 4, 5, 6, 7]
  {
    InitialStateShowsAllNotices(NoticeList);
    StartPins();
    StartDates();
    StartIds();
    SortSeven(ExamSchedule, HostelMaintenance, AavishkarRegistrations, PlacementDrive,
      LibraryTimings, MachineLearningWorkshop, SportsMeet);
  }
}
