/**
 * Which candidates hear of an approved job: those with one of its skills, then those whose locations match its
 * location, up to a hundred of them.
 */
module Matching {
  import opened Basics
  import opened Text

  type Id = string

  datatype JobSkill = JobSkill(job: Id, skill: Id)
  datatype CandidateSkill = CandidateSkill(candidate: Id, skill: Id)

  /** A candidate's profile; profiles are identified by their user. */
  datatype Profile = Profile(user: Id, location: Option<string>, preferredLocations: seq<string>)

  /** The tables the matcher reads, and the users whose status is Active. */
  datatype Tables = Tables(
    active: set<Id>, jobSkills: seq<JobSkill>, candidateSkills: seq<CandidateSkill>, profiles: seq<Profile>)

  const MAX_MATCHED_CANDIDATES: nat := 100

  // ------------------------------------------------------------------ locations

  /** JavaScript's `a.includes(b)`. */
  predicate Includes(a: string, b: string)
  {
    exists i :: 0 <= i <= |a| && b <= a[i..]
  }

  /** `lower` is `toLowerCase()`. */
  function NormalizeLocation(lower: string -> string, value: Option<string>): string
  {
    lower(Trim(if value.Some? then value.value else ""))
  }

  predicate LocationsMatch(lower: string -> string, jobLocation: Option<string>, candidateLocation: Option<string>)
  {
    var a, b := NormalizeLocation(lower, jobLocation), NormalizeLocation(lower, candidateLocation);
    a != "" && b != "" && (a == b || Includes(a, b) || Includes(b, a))
  }

  /** Matching is symmetric: neither text may be empty and the shorter must occur in the longer. */
  lemma LocationsMatchExactly(lower: string -> string, a: Option<string>, b: Option<string>)
    ensures LocationsMatch(lower, a, b) == LocationsMatch(lower, b, a)
    ensures var x, y := NormalizeLocation(lower, a), NormalizeLocation(lower, b);
            LocationsMatch(lower, a, b) <==> x != "" && y != "" && if |x| < |y| then Includes(y, x) else Includes(x, y)
  {
    var x, y := NormalizeLocation(lower, a), NormalizeLocation(lower, b);
    if x == y {
      assert y <= x[0..];
    }
    if |x| == |y| && Includes(y, x) {
      var i :| 0 <= i <= |y| && x <= y[i..];
      assert i == 0 && y[0..] == y;
    }
  }

  lemma {:induction false} LeadingSpaceIgnored(left: string, text: string)
    requires forall c :: c in left ==> IsSpace(c)
    ensures TrimStart(left + text) == TrimStart(text)
  {
    if left == "" {
      assert left + text == text;
    } else {
      LeadingSpaceIgnored(left[1..], text);
      assert (left + text)[1..] == left[1..] + text;
    }
  }

  lemma {:induction false} TrailingSpaceIgnored(text: string, right: string)
    requires forall c :: c in right ==> IsSpace(c)
    ensures TrimEnd(text + right) == TrimEnd(text)
  {
    if right == "" {
      assert text + right == text;
    } else {
      var n := |right| - 1;
      TrailingSpaceIgnored(text, right[..n]);
      assert (text + right)[..|text + right| - 1] == text + right[..n];
    }
  }

  lemma {:induction false} TrimStartBefore(text: string, right: string)
    requires forall c :: c in right ==> IsSpace(c)
    ensures TrimEnd(TrimStart(text + right)) == TrimEnd(TrimStart(text))
  {
    if text == "" {
      assert text + right == right;
      LeadingSpaceIgnored(right, "");
      assert right + "" == right;
    } else if IsSpace(text[0]) {
      TrimStartBefore(text[1..], right);
      assert (text + right)[1..] == text[1..] + right;
    } else {
      TrailingSpaceIgnored(text, right);
    }
  }

  /** White space around a location makes no difference. */
  lemma OuterSpaceIgnored(lower: string -> string, left: string, text: string, right: string, other: Option<string>)
    requires forall c :: c in left + right ==> IsSpace(c)
    ensures LocationsMatch(lower, Some(left + text + right), other) == LocationsMatch(lower, Some(text), other)
  {
    forall c | c in left
      ensures IsSpace(c)
    {
      assert c in left + right;
    }
    forall c | c in right
      ensures IsSpace(c)
    {
      assert c in left + right;
    }
    assert left + text + right == left + (text + right);
    LeadingSpaceIgnored(left, text + right);
    TrimStartBefore(text, right);
  }

  /** So does the spelling that lower-casing hides. */
  lemma CaseIgnored(lower: string -> string, a: string, b: string, other: Option<string>)
    requires lower(Trim(a)) == lower(Trim(b))
    ensures LocationsMatch(lower, Some(a), other) == LocationsMatch(lower, Some(b), other)
  {
  }

  // ------------------------------------------------------------------ who matches

  predicate MatchesBySkill(db: Tables, job: Id, user: Id)
  {
    user in db.active
    && exists m :: m in db.candidateSkills && m.candidate == user && JobSkill(job, m.skill) in db.jobSkills
  }

  /** All a profile says about places. */
  function Places(p: Profile): seq<string>
  {
    (if p.location.Some? then [p.location.value] else []) + p.preferredLocations
  }

  predicate SomePlaceMatches(lower: string -> string, jobLocation: Option<string>, places: seq<string>)
  {
    exists l :: l in places && LocationsMatch(lower, jobLocation, Some(l))
  }

  predicate MatchesByLocation(db: Tables, lower: string -> string, jobLocation: Option<string>, user: Id)
  {
    user in db.active && exists p :: p in db.profiles && p.user == user && SomePlaceMatches(lower, jobLocation, Places(p))
  }

  /** Who that is, table by table. */
  lemma MatchesExactly(db: Tables, lower: string -> string, job: Id, jobLocation: Option<string>, u: Id)
    ensures MatchesBySkill(db, job, u)
            <==> u in db.active
                 && exists s :: JobSkill(job, s) in db.jobSkills && CandidateSkill(u, s) in db.candidateSkills
    ensures MatchesByLocation(db, lower, jobLocation, u)
            <==> u in db.active
                 && exists p :: p in db.profiles && p.user == u
                                && (|| (p.location.Some? && LocationsMatch(lower, jobLocation, p.location))
                                    || exists l :: l in p.preferredLocations && LocationsMatch(lower, jobLocation, Some(l)))
  {
    hide LocationsMatch;
    if s :| JobSkill(job, s) in db.jobSkills && CandidateSkill(u, s) in db.candidateSkills {
      assert CandidateSkill(u, s).candidate == u;
    }
    if MatchesBySkill(db, job, u) {
      var m :| m in db.candidateSkills && m.candidate == u && JobSkill(job, m.skill) in db.jobSkills;
      assert m == CandidateSkill(u, m.skill);
    }
    forall p: Profile
      ensures SomePlaceMatches(lower, jobLocation, Places(p))
              <==> || (p.location.Some? && LocationsMatch(lower, jobLocation, p.location))
                   || exists l :: l in p.preferredLocations && LocationsMatch(lower, jobLocation, Some(l))
    {
      PlaceMatchesExactly(lower, jobLocation, p);
    }
  }

  lemma PlaceMatchesExactly(lower: string -> string, jobLocation: Option<string>, p: Profile)
    ensures SomePlaceMatches(lower, jobLocation, Places(p))
            <==> || (p.location.Some? && LocationsMatch(lower, jobLocation, p.location))
                 || exists l :: l in p.preferredLocations && LocationsMatch(lower, jobLocation, Some(l))
  {
    hide LocationsMatch;
    assert forall l :: l in Places(p) <==> (p.location.Some? && l == p.location.value) || l in p.preferredLocations;
    if p.location.Some? {
      assert p.location == Some(p.location.value);
    }
  }

  function Matching(db: Tables, lower: string -> string, job: Id, jobLocation: Option<string>): set<Id>
  {
    set u | u in db.active && (MatchesBySkill(db, job, u) || MatchesByLocation(db, lower, jobLocation, u))
  }

  /** What the query keeps: active users with a location or a preferred one. */
  predicate Prefilter(db: Tables, p: Profile)
  {
    p.user in db.active && (p.location.Some? || p.preferredLocations != [])
  }

  /** The query's filter and the dropping of empty texts lose no match. */
  lemma NoMatchIsFilteredOut(db: Tables, lower: string -> string, jobLocation: Option<string>, p: Profile)
    requires lower("") == "" && p.user in db.active && SomePlaceMatches(lower, jobLocation, Places(p))
    ensures Prefilter(db, p) && jobLocation.Some? && jobLocation.value != ""
    ensures SomePlaceMatches(lower, jobLocation, Where(Places(p), l => l != ""))
  {
    var l :| l in Places(p) && LocationsMatch(lower, jobLocation, Some(l));
    assert Trim("") == "";
    assert l in Where(Places(p), l => l != "");
  }

  // ------------------------------------------------------------------ the list

  /** Adding to a set that keeps insertion order. */
  function Added(ids: seq<Id>, id: Id): seq<Id>
  {
    if id in ids then ids else ids + [id]
  }

  lemma {:induction false} SizeWithoutRepeats(ids: seq<Id>, all: set<Id>)
    requires NoRepeats(ids) && forall x :: x in all <==> x in ids
    ensures |all| == |ids|
  {
    if ids != [] {
      var last := ids[|ids| - 1];
      SizeWithoutRepeats(ids[..|ids| - 1], all - {last});
    } else {
      assert all == {};
    }
  }

  /**
   * `findMatchedCandidateUserIds`. The list has no repeats and at most a hundred users, each of them active and
   * matching; it has all of them when they are at most a hundred; and a user who matches by location alone is
   * only listed when every match by skill is.
   */
  method FindMatchedCandidateUserIds(db: Tables, lower: string -> string, job: Id, jobLocation: Option<string>)
    returns (ids: seq<Id>)
    requires lower("") == ""
    ensures NoRepeats(ids)
    ensures forall u :: u in ids ==> u in Matching(db, lower, job, jobLocation)
    ensures forall u :: u in Matching(db, lower, job, jobLocation)
                        <==> u in db.active && (MatchesBySkill(db, job, u) || MatchesByLocation(db, lower, jobLocation, u))
    ensures var n := |Matching(db, lower, job, jobLocation)|;
            |ids| == if n < 100 then n else 100
    ensures |Matching(db, lower, job, jobLocation)| <= 100
        ==> forall u :: u in Matching(db, lower, job, jobLocation) ==> u in ids
    ensures forall u, v :: u in ids && !MatchesBySkill(db, job, u) && MatchesBySkill(db, job, v) ==> v in ids
  {
    var bySkill := FindBySkill(db, job);
    var matched := AddByLocation(db, lower, jobLocation, bySkill);
    SizeWithoutRepeats(matched, Matching(db, lower, job, jobLocation));
    ids := if |matched| < MAX_MATCHED_CANDIDATES then matched else matched[..MAX_MATCHED_CANDIDATES];
    forall u, v | u in ids && !MatchesBySkill(db, job, u) && MatchesBySkill(db, job, v)
      ensures v in ids
    {
      var i :| 0 <= i < |ids| && ids[i] == u;
      var j :| 0 <= j < |bySkill| && bySkill[j] == v;
      assert matched[j] == v && matched[i] == u && u !in bySkill;
      assert i >= |bySkill|;
      assert ids[j] == v;
    }
  }

  /** The first half of `findMatchedCandidateUserIds`. */
  method FindBySkill(db: Tables, job: Id) returns (matched: seq<Id>)
    ensures NoRepeats(matched) && forall u :: u in matched <==> MatchesBySkill(db, job, u)
  {
    matched := [];
    var jobSkills := Where(db.jobSkills, (r: JobSkill) => r.job == job);
    if |jobSkills| > 0 {
      var skillMatches :=
        Where(db.candidateSkills, (m: CandidateSkill) => JobSkill(job, m.skill) in jobSkills && m.candidate in db.active);
      for i := 0 to |skillMatches|
        invariant NoRepeats(matched)
        invariant forall u :: u in matched <==> exists m :: m in skillMatches[..i] && m.candidate == u
      {
        assert skillMatches[..i + 1] == skillMatches[..i] + [skillMatches[i]];
        matched := Added(matched, skillMatches[i].candidate);
      }
      assert skillMatches[..|skillMatches|] == skillMatches;
    }
  }

  /** The second half: matches by location go after the matches by skill. */
  method AddByLocation(db: Tables, lower: string -> string, jobLocation: Option<string>, bySkill: seq<Id>)
    returns (matched: seq<Id>)
    requires lower("") == "" && NoRepeats(bySkill)
    ensures NoRepeats(matched) && bySkill <= matched
    ensures forall u :: u in matched <==> u in bySkill || MatchesByLocation(db, lower, jobLocation, u)
  {
    matched := bySkill;
    forall p | p in db.profiles && p.user in db.active && SomePlaceMatches(lower, jobLocation, Places(p))
      ensures Prefilter(db, p) && jobLocation.Some? && jobLocation.value != ""
           && SomePlaceMatches(lower, jobLocation, Where(Places(p), l => l != ""))
    {
      NoMatchIsFilteredOut(db, lower, jobLocation, p);
    }
    if jobLocation.Some? && jobLocation.value != "" {
      var profiles := Where(db.profiles, p => Prefilter(db, p));
      for i := 0 to |profiles|
        invariant NoRepeats(matched) && bySkill <= matched
        invariant forall u :: u in matched <==>
          u in bySkill || exists p :: p in profiles[..i] && p.user == u && SomePlaceMatches(lower, jobLocation, Places(p))
      {
        assert profiles[..i + 1] == profiles[..i] + [profiles[i]];
        if SomePlaceMatches(lower, jobLocation, Where(Places(profiles[i]), l => l != "")) {
          matched := Added(matched, profiles[i].user);
        }
      }
      assert profiles[..|profiles|] == profiles;
    }
  }
}
