/** The headers of the export's four tables, part by part: none of them needs quotes. */
module HeaderTexts {
  import opened Quoting

  lemma CandidateContactIsPlain()
    ensures PlainHeaders(["Full Name", "Email", "Phone", "Location"])
  {
  }

  lemma CandidateProfileIsPlain()
    ensures PlainHeaders(["Title", "Bio", "Total Experience", "Notice Period"])
  {
  }

  lemma CandidateTermsIsPlain()
    ensures PlainHeaders(["Expected Salary", "Availability"])
  {
  }

  lemma CandidatePlacesIsPlain()
    ensures PlainHeaders(["Preferred Locations", "Languages"])
  {
  }

  lemma CandidateBackgroundIsPlain()
    ensures PlainHeaders(["Skills", "Career Break", "Work Experience", "Education"])
  {
  }

  lemma CandidateAccountIsPlain()
    ensures PlainHeaders(["Social Links", "Resume Link", "Account Status", "Joined On"])
  {
  }

  lemma RecruiterContactIsPlain()
    ensures PlainHeaders(["Full Name", "Email", "Phone", "Company"])
  {
  }

  lemma RecruiterCompanyIsPlain()
    ensures PlainHeaders(["Company Website", "Company Industry", "Company Location", "Company Status"])
  {
  }

  lemma RecruiterAccountIsPlain()
    ensures PlainHeaders(["Verified", "Account Status", "Joined On"])
  {
  }

  lemma CompanyProfileIsPlain()
    ensures PlainHeaders(["Company Name", "Website", "Industry", "Location", "Status"])
  {
  }

  lemma CompanyCountsIsPlain()
    ensures PlainHeaders(["Recruiters", "Hired Count", "Perk Requests"])
  {
  }

  lemma CompanyRegistrationIsPlain()
    ensures PlainHeaders(["Verification Documents", "Registered On"])
  {
  }

  lemma JobPostingIsPlain()
    ensures PlainHeaders(["Title", "Company", "Location", "Status"])
  {
  }

  lemma JobListingIsPlain()
    ensures PlainHeaders(["Visibility", "Reported", "Applications", "Posted On"])
  {
  }
}

/**
 * The combined "all" export: several titled tables in one CSV text, separated by a blank line.
 *
 * `ReadExport` is the independent reader: it reads records as `Csv.ReadCsv` does, cuts them at the records
 * that are one empty field, and takes each piece as a title, a header row and data rows.
 */
module CsvExport {
  import opened Basics
  import opened Text
  import opened Csv
  import opened HeaderTexts
  import opened Quoting

  datatype Section = Section(title: string, headers: Record, rows: seq<Record>)

  const BLANK: Record := [""]

  // ------------------------------------------------------------------ the writer

  /** What `toCsvSection` prints. */
  function SectionText(s: Section): string
  {
    EscapeText(s.title) + [LF] + CsvText(s.headers, s.rows)
  }

  function SectionTexts(sections: seq<Section>): seq<string>
  {
    seq(|sections|, i requires 0 <= i < |sections| => SectionText(sections[i]))
  }

  function ExportText(sections: seq<Section>): string
  {
    Join(SectionTexts(sections), [LF, LF])
  }

  // ------------------------------------------------------------------ the reader

  /** The maximal runs of records without a blank one, in order: one more than there are blank records. */
  function Groups(records: seq<Record>): (g: seq<seq<Record>>)
    ensures |g| >= 1
  {
    if records == [] then [[]]
    else
      var rest := Groups(records[1..]);
      if records[0] == BLANK then [[]] + rest
      else [[records[0]] + rest[0]] + rest[1..]
  }

  function ToSection(group: seq<Record>): Option<Section>
  {
    if |group| >= 2 && |group[0]| == 1 then Some(Section(group[0][0], group[1], group[2..])) else None
  }

  function ToSections(groups: seq<seq<Record>>): Option<seq<Section>>
  {
    if groups == [] then Some([])
    else
      match (ToSection(groups[0]), ToSections(groups[1..]))
      case (Some(s), Some(rest)) => Some([s] + rest)
      case _ => None
  }

  function ReadExport(text: string): Option<seq<Section>>
  {
    match ReadCsv(text)
    case None => None
    case Some(records) => ToSections(Groups(records))
  }

  // ------------------------------------------------------------------ the records of an export

  function SectionRecords(s: Section): seq<Record>
  {
    [[s.title], s.headers] + s.rows
  }

  function ExportRecords(sections: seq<Section>): seq<Record>
  {
    if |sections| == 0 then []
    else if |sections| == 1 then SectionRecords(sections[0])
    else SectionRecords(sections[0]) + [BLANK] + ExportRecords(sections[1..])
  }

  predicate Printable(sections: seq<Section>)
  {
    forall i :: 0 <= i < |sections| ==> PlainHeaders(sections[i].headers) && NoEmptyRow(sections[i].rows)
  }

  predicate NoBlankRecord(sections: seq<Section>)
  {
    forall i :: 0 <= i < |sections| ==> BLANK !in SectionRecords(sections[i])
  }

  lemma {:induction false} LinesAppend(a: seq<Record>, b: seq<Record>)
    ensures Lines(a + b) == Lines(a) + Lines(b)
  {
  }

  lemma {:induction false} JoinAppend(a: seq<string>, b: seq<string>, sep: string)
    requires |a| >= 1 && |b| >= 1
    ensures Join(a + b, sep) == Join(a, sep) + sep + Join(b, sep)
  {
    if |a| == 1 {
      assert (a + b)[1..] == b;
    } else {
      JoinAppend(a[1..], b, sep);
      assert (a + b)[1..] == a[1..] + b;
      calc {
        Join(a + b, sep);
        a[0] + sep + (Join(a[1..], sep) + sep + Join(b, sep));
        (a[0] + sep + Join(a[1..], sep)) + sep + Join(b, sep);
      }
    }
  }

  lemma SectionTextAsLines(s: Section)
    requires PlainHeaders(s.headers)
    ensures SectionText(s) == Join(Lines(SectionRecords(s)), [LF])
  {
    HeaderLine(s.headers);
    var body := [s.headers] + s.rows;
    CsvTextAsLines(s.headers, s.rows);
    CsvTextAsLines([s.title], body);
    assert SectionRecords(s) == [[s.title]] + body;
    assert Line([s.title]) == EscapeText(s.title);
    assert ([Line([s.title])] + Lines(body))[1..] == Lines(body);
  }

  /** Two texts two line breaks apart are their records with a blank one between. */
  lemma BlankBetween(first: seq<Record>, rest: seq<Record>)
    requires first != [] && rest != []
    ensures Join(Lines(first + [BLANK] + rest), [LF]) == Join(Lines(first), [LF]) + [LF, LF] + Join(Lines(rest), [LF])
  {
    LinesAppend(first + [BLANK], rest);
    LinesAppend(first, [BLANK]);
    assert Lines([BLANK]) == [""];
    JoinAppend(Lines(first) + [""], Lines(rest), [LF]);
    JoinAppend(Lines(first), [""], [LF]);
    var a, b := Join(Lines(first), [LF]), Join(Lines(rest), [LF]);
    assert a + [LF] + "" + [LF] + b == a + [LF, LF] + b;
  }

  lemma {:induction false} ExportTextAsLines(sections: seq<Section>)
    requires sections != [] && Printable(sections)
    ensures ExportText(sections) == Join(Lines(ExportRecords(sections)), [LF])
  {
    SectionTextAsLines(sections[0]);
    assert SectionTexts(sections) == [SectionText(sections[0])] + SectionTexts(sections[1..]);
    if |sections| > 1 {
      ExportTextAsLines(sections[1..]);
      BlankBetween(SectionRecords(sections[0]), ExportRecords(sections[1..]));
    }
  }

  lemma {:induction false} ExportRecordsNotEmpty(sections: seq<Section>)
    requires sections != [] && Printable(sections)
    ensures ExportRecords(sections) != [] && NoEmptyRow(ExportRecords(sections))
  {
    if |sections| > 1 {
      ExportRecordsNotEmpty(sections[1..]);
    }
  }

  lemma {:induction false} GroupsOfRun(run: seq<Record>)
    requires BLANK !in run
    ensures Groups(run) == [run]
  {
    if run != [] {
      GroupsOfRun(run[1..]);
      assert [run[0]] + run[1..] == run;
    }
  }

  lemma {:induction false} GroupsOfRunThen(run: seq<Record>, rest: seq<Record>)
    requires BLANK !in run
    ensures Groups(run + [BLANK] + rest) == [run] + Groups(rest)
  {
    var all := run + [BLANK] + rest;
    if run == [] {
      assert all[1..] == rest;
    } else {
      GroupsOfRunThen(run[1..], rest);
      assert all[1..] == run[1..] + [BLANK] + rest;
      assert [run[0]] + run[1..] == run;
    }
  }

  lemma {:induction false} SectionsRecovered(sections: seq<Section>)
    requires sections != [] && NoBlankRecord(sections)
    ensures ToSections(Groups(ExportRecords(sections))) == Some(sections)
  {
    var first := SectionRecords(sections[0]);
    assert ToSection(first) == Some(sections[0]);
    if |sections| == 1 {
      GroupsOfRun(first);
      assert [first][1..] == [];
      assert ToSections([]) == Some([]);
    } else {
      SectionsRecovered(sections[1..]);
      GroupsOfRunThen(first, ExportRecords(sections[1..]));
      assert ([first] + Groups(ExportRecords(sections[1..])))[1..] == Groups(ExportRecords(sections[1..]));
    }
    assert [sections[0]] + sections[1..] == sections;
  }

  function Blanks(records: seq<Record>): nat
  {
    if records == [] then 0 else (if records[0] == BLANK then 1 else 0) + Blanks(records[1..])
  }

  lemma {:induction false} BlanksAppend(a: seq<Record>, b: seq<Record>)
    ensures Blanks(a + b) == Blanks(a) + Blanks(b)
  {
    if a == [] {
      assert a + b == b;
    } else {
      BlanksAppend(a[1..], b);
      assert (a + b)[1..] == a[1..] + b;
    }
  }

  lemma {:induction false} BlanksPositive(records: seq<Record>)
    ensures Blanks(records) > 0 <==> BLANK in records
  {
    if records != [] {
      BlanksPositive(records[1..]);
    }
  }

  lemma {:induction false} OneGroupMoreThanBlanks(records: seq<Record>)
    ensures |Groups(records)| == Blanks(records) + 1
  {
    if records != [] {
      OneGroupMoreThanBlanks(records[1..]);
    }
  }

  lemma {:induction false} ToSectionsLength(groups: seq<seq<Record>>)
    ensures ToSections(groups).Some? ==> |ToSections(groups).value| == |groups|
  {
    if groups != [] {
      ToSectionsLength(groups[1..]);
    }
  }

  /** A blank record inside a section adds a break. */
  lemma {:induction false} BlankRecordsAddBreaks(sections: seq<Section>)
    requires sections != []
    ensures Blanks(ExportRecords(sections)) >= |sections| - 1
    ensures !NoBlankRecord(sections) ==> Blanks(ExportRecords(sections)) > |sections| - 1
  {
    var first := SectionRecords(sections[0]);
    BlanksPositive(first);
    if |sections| > 1 {
      var rest := ExportRecords(sections[1..]);
      BlankRecordsAddBreaks(sections[1..]);
      BlanksAppend(first + [BLANK], rest);
      BlanksAppend(first, [BLANK]);
      assert [BLANK][1..] == [];
      if NoBlankRecord(sections[1..]) && BLANK !in first {
        forall i | 0 <= i < |sections|
          ensures BLANK !in SectionRecords(sections[i])
        {
          assert i > 0 ==> sections[i] == sections[1..][i - 1];
        }
      }
    }
  }

  /**
   * The sections come back whole, in order, for exactly the exports in which no title, header row or data
   * row is itself a single empty cell. What the cells contain makes no difference: commas, quotes, line
   * breaks and blank lines inside a cell never start or end a section.
   */
  lemma ExportRecoversExactly(sections: seq<Section>)
    requires sections != [] && Printable(sections)
    ensures ReadExport(ExportText(sections)) == Some(sections) <==> NoBlankRecord(sections)
  {
    var records := ExportRecords(sections);
    ExportTextAsLines(sections);
    ExportRecordsNotEmpty(sections);
    LinesReadBack(records);
    if NoBlankRecord(sections) {
      SectionsRecovered(sections);
    } else {
      BlankRecordsAddBreaks(sections);
      OneGroupMoreThanBlanks(records);
      ToSectionsLength(Groups(records));
    }
  }

  // ------------------------------------------------------------------ the four sections of the export

  const CANDIDATE_HEADERS: Record := [
    "Full Name", "Email", "Phone", "Location", "Title", "Bio",
    "Total Experience", "Notice Period", "Expected Salary", "Availability",
    "Preferred Locations", "Languages", "Skills", "Career Break",
    "Work Experience", "Education", "Social Links", "Resume Link",
    "Account Status", "Joined On"]

  const RECRUITER_HEADERS: Record := [
    "Full Name", "Email", "Phone", "Company", "Company Website",
    "Company Industry", "Company Location", "Company Status", "Verified",
    "Account Status", "Joined On"]

  const COMPANY_HEADERS: Record := [
    "Company Name", "Website", "Industry", "Location", "Status",
    "Recruiters", "Hired Count", "Perk Requests", "Verification Documents",
    "Registered On"]

  const JOB_HEADERS: Record := [
    "Title", "Company", "Location", "Status", "Visibility", "Reported", "Applications", "Posted On"]

  predicate Wide(headers: Record, rows: seq<seq<Cell>>)
  {
    forall i :: 0 <= i < |rows| ==> |rows[i]| == |headers|
  }

  lemma PlainAppend(a: Record, b: Record)
    requires PlainHeaders(a) && PlainHeaders(b)
    ensures PlainHeaders(a + b)
  {
  }

  lemma CandidateHeadersArePlain()
    ensures PlainHeaders(CANDIDATE_HEADERS)
  {
    CandidateContactIsPlain();
    CandidateProfileIsPlain();
    CandidateTermsIsPlain();
    CandidatePlacesIsPlain();
    CandidateBackgroundIsPlain();
    CandidateAccountIsPlain();
    hide PlainHeaders;
    var h1 := ["Full Name", "Email", "Phone", "Location"];
    var h2 := ["Title", "Bio", "Total Experience", "Notice Period"];
    var h3 := ["Expected Salary", "Availability"];
    var h4 := ["Preferred Locations", "Languages"];
    var h5 := ["Skills", "Career Break", "Work Experience", "Education"];
    var h6 := ["Social Links", "Resume Link", "Account Status", "Joined On"];
    PlainAppend(h1, h2);
    PlainAppend(h1 + h2, h3);
    PlainAppend(h1 + h2 + h3, h4);
    PlainAppend(h1 + h2 + h3 + h4, h5);
    PlainAppend(h1 + h2 + h3 + h4 + h5, h6);
    assert CANDIDATE_HEADERS == h1 + h2 + h3 + h4 + h5 + h6;
  }

  lemma RecruiterHeadersArePlain()
    ensures PlainHeaders(RECRUITER_HEADERS)
  {
    RecruiterContactIsPlain();
    RecruiterCompanyIsPlain();
    RecruiterAccountIsPlain();
    hide PlainHeaders;
    var h1 := ["Full Name", "Email", "Phone", "Company"];
    var h2 := ["Company Website", "Company Industry", "Company Location", "Company Status"];
    var h3 := ["Verified", "Account Status", "Joined On"];
    PlainAppend(h1, h2);
    PlainAppend(h1 + h2, h3);
    assert RECRUITER_HEADERS == h1 + h2 + h3;
  }

  lemma CompanyHeadersArePlain()
    ensures PlainHeaders(COMPANY_HEADERS)
  {
    CompanyProfileIsPlain();
    CompanyCountsIsPlain();
    CompanyRegistrationIsPlain();
    hide PlainHeaders;
    var h1 := ["Company Name", "Website", "Industry", "Location", "Status"];
    var h2 := ["Recruiters", "Hired Count", "Perk Requests"];
    var h3 := ["Verification Documents", "Registered On"];
    PlainAppend(h1, h2);
    PlainAppend(h1 + h2, h3);
    assert COMPANY_HEADERS == h1 + h2 + h3;
  }

  lemma JobHeadersArePlain()
    ensures PlainHeaders(JOB_HEADERS)
  {
    JobPostingIsPlain();
    JobListingIsPlain();
    hide PlainHeaders;
    var h1 := ["Title", "Company", "Location", "Status"];
    var h2 := ["Visibility", "Reported", "Applications", "Posted On"];
    PlainAppend(h1, h2);
    assert JOB_HEADERS == h1 + h2;
  }

  predicate SafeSection(s: Section)
  {
    PlainHeaders(s.headers) && NoEmptyRow(s.rows) && BLANK !in SectionRecords(s)
  }

  lemma WideSectionIsSafe(title: string, headers: Record, rows: seq<seq<Cell>>)
    requires title != "" && |headers| >= 2 && PlainHeaders(headers) && Wide(headers, rows)
    ensures SafeSection(Section(title, headers, RowTexts(rows)))
  {
  }

  function CandidateSection(rows: seq<seq<Cell>>): Section
  {
    Section("=== CANDIDATES ===", CANDIDATE_HEADERS, RowTexts(rows))
  }

  function RecruiterSection(rows: seq<seq<Cell>>): Section
  {
    Section("=== RECRUITERS ===", RECRUITER_HEADERS, RowTexts(rows))
  }

  function CompanySection(rows: seq<seq<Cell>>): Section
  {
    Section("=== COMPANIES ===", COMPANY_HEADERS, RowTexts(rows))
  }

  function JobSection(rows: seq<seq<Cell>>): Section
  {
    Section("=== JOBS ===", JOB_HEADERS, RowTexts(rows))
  }

  lemma CandidateSectionIsSafe(rows: seq<seq<Cell>>)
    requires Wide(CANDIDATE_HEADERS, rows)
    ensures SafeSection(CandidateSection(rows))
  {
    CandidateHeadersArePlain();
    WideSectionIsSafe("=== CANDIDATES ===", CANDIDATE_HEADERS, rows);
  }

  lemma RecruiterSectionIsSafe(rows: seq<seq<Cell>>)
    requires Wide(RECRUITER_HEADERS, rows)
    ensures SafeSection(RecruiterSection(rows))
  {
    RecruiterHeadersArePlain();
    WideSectionIsSafe("=== RECRUITERS ===", RECRUITER_HEADERS, rows);
  }

  lemma CompanySectionIsSafe(rows: seq<seq<Cell>>)
    requires Wide(COMPANY_HEADERS, rows)
    ensures SafeSection(CompanySection(rows))
  {
    CompanyHeadersArePlain();
    WideSectionIsSafe("=== COMPANIES ===", COMPANY_HEADERS, rows);
  }

  lemma JobSectionIsSafe(rows: seq<seq<Cell>>)
    requires Wide(JOB_HEADERS, rows)
    ensures SafeSection(JobSection(rows))
  {
    JobHeadersArePlain();
    WideSectionIsSafe("=== JOBS ===", JOB_HEADERS, rows);
  }

  lemma FourSafeSectionsReadBack(c: Section, r: Section, o: Section, j: Section)
    requires SafeSection(c) && SafeSection(r) && SafeSection(o) && SafeSection(j)
    ensures SectionTexts([c, r, o, j]) == [SectionText(c), SectionText(r), SectionText(o), SectionText(j)]
    ensures ReadExport(ExportText([c, r, o, j])) == Some([c, r, o, j])
  {
    ExportRecoversExactly([c, r, o, j]);
  }

  lemma SectionReadsBack(title: string, headers: Record, rows: seq<seq<Cell>>)
    requires PlainHeaders(headers) && forall i :: 0 <= i < |rows| ==> rows[i] != []
    ensures ReadCsv(SectionText(Section(title, headers, RowTexts(rows)))) == Some([[title], headers] + RowTexts(rows))
    ensures Shows(RowTexts(rows), rows)
  {
    RowTextsShow(rows);
    SectionTextAsLines(Section(title, headers, RowTexts(rows)));
    LinesReadBack([[title], headers] + RowTexts(rows));
  }

  method ToCsvSection(title: string, headers: Record, rows: seq<seq<Cell>>) returns (text: string)
    ensures text == SectionText(Section(title, headers, RowTexts(rows)))
    ensures PlainHeaders(headers) && (forall i :: 0 <= i < |rows| ==> rows[i] != []) ==>
              ReadCsv(text).Some? && |ReadCsv(text).value| == |rows| + 2
              && ReadCsv(text).value[..2] == [[title], headers] && Shows(ReadCsv(text).value[2..], rows)
  {
    if PlainHeaders(headers) && forall i :: 0 <= i < |rows| ==> rows[i] != [] {
      SectionReadsBack(title, headers, rows);
    }
    var csv := ToCsv(headers, rows);
    text := CsvEscape(Value(title)) + [LF] + csv;
  }

  lemma ExportReadsBack(candidates: seq<seq<Cell>>, recruiters: seq<seq<Cell>>, companies: seq<seq<Cell>>,
                        jobs: seq<seq<Cell>>)
    requires Wide(CANDIDATE_HEADERS, candidates) && Wide(RECRUITER_HEADERS, recruiters)
    requires Wide(COMPANY_HEADERS, companies) && Wide(JOB_HEADERS, jobs)
    ensures var sections := [CandidateSection(candidates), RecruiterSection(recruiters), CompanySection(companies),
                             JobSection(jobs)];
            && ReadExport(Join([SectionText(sections[0]), SectionText(sections[1]), SectionText(sections[2]),
                                SectionText(sections[3])], [LF, LF])) == Some(sections)
            && Shows(sections[0].rows, candidates) && Shows(sections[1].rows, recruiters)
            && Shows(sections[2].rows, companies) && Shows(sections[3].rows, jobs)
  {
    hide Shows, RowTexts, Wide, PlainHeaders, ReadCsv, ReadExport, SectionText, SafeSection;
    RowTextsShow(candidates);
    RowTextsShow(recruiters);
    RowTextsShow(companies);
    RowTextsShow(jobs);
    CandidateSectionIsSafe(candidates);
    RecruiterSectionIsSafe(recruiters);
    CompanySectionIsSafe(companies);
    JobSectionIsSafe(jobs);
    FourSafeSectionsReadBack(CandidateSection(candidates), RecruiterSection(recruiters),
                             CompanySection(companies), JobSection(jobs));
  }

  /** The `type === "all"` branch of `getReports`: every section of every export can be read back. */
  method ExportAll(candidates: seq<seq<Cell>>, recruiters: seq<seq<Cell>>, companies: seq<seq<Cell>>,
                   jobs: seq<seq<Cell>>)
    returns (text: string)
    requires Wide(CANDIDATE_HEADERS, candidates) && Wide(RECRUITER_HEADERS, recruiters)
    requires Wide(COMPANY_HEADERS, companies) && Wide(JOB_HEADERS, jobs)
    ensures ReadExport(text) == Some([CandidateSection(candidates), RecruiterSection(recruiters),
                                      CompanySection(companies), JobSection(jobs)])
    ensures var sections := ReadExport(text).value;
            && sections[0].title == "=== CANDIDATES ===" && sections[1].title == "=== RECRUITERS ==="
            && sections[2].title == "=== COMPANIES ===" && sections[3].title == "=== JOBS ==="
            && sections[0].headers == CANDIDATE_HEADERS && sections[1].headers == RECRUITER_HEADERS
            && sections[2].headers == COMPANY_HEADERS && sections[3].headers == JOB_HEADERS
            && Shows(sections[0].rows, candidates) && Shows(sections[1].rows, recruiters)
            && Shows(sections[2].rows, companies) && Shows(sections[3].rows, jobs)
  {
    hide Shows, RowTexts, Wide, PlainHeaders, ReadCsv, ReadExport, SectionText;
    var c := ToCsvSection("=== CANDIDATES ===", CANDIDATE_HEADERS, candidates);
    var r := ToCsvSection("=== RECRUITERS ===", RECRUITER_HEADERS, recruiters);
    var o := ToCsvSection("=== COMPANIES ===", COMPANY_HEADERS, companies);
    var j := ToCsvSection("=== JOBS ===", JOB_HEADERS, jobs);
    text := Join([c, r, o, j], [LF, LF]);
    ExportReadsBack(candidates, recruiters, companies, jobs);
  }
}
