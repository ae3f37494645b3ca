/**
 * The `/stats` renderer: one member's completed days, latest day first,
 * with a star for each completed part of the day.
 */
module Stats {
  import opened Optional
  import opened Text
  import opened Sorting
  import opened Snapshot

  const Star := " :star:"

  function NotFound(userId: string): string {
    userId + " does not exist, use /users command to list users and their IDs"
  }

  function NoDays(name: string): string {
    "No days completed for user **" + name + "**"
  }

  function StatsHeading(name: string): string {
    ":santa: **Completition level for user: " + name + "**"
  }

  /** The parts of a day that earn a star: the own keys "1" and "2". */
  function StarCount(parts: set<string>): (n: nat)
    ensures n <= 2
  {
    (if "1" in parts then 1 else 0) + (if "2" in parts then 1 else 0)
  }

  /** A star for the first part, then one for the second, each when present. */
  function Stars(parts: set<string>): string {
    (if "1" in parts then Star else "") + (if "2" in parts then Star else "")
  }

  /** Every day shows one star per completed part, whatever other keys the day has. */
  lemma StarsCount(parts: set<string>)
    ensures Stars(parts) == Times(Star, StarCount(parts))
    ensures StarCount(parts) == |parts * {"1", "2"}|
  {
    var both := parts * {"1", "2"};
    if "1" in parts && "2" in parts {
      assert both == {"1", "2"};
    } else if "1" in parts {
      assert both == {"1"};
    } else if "2" in parts {
      assert both == {"2"};
    } else {
      assert both == {};
    }
  }

  /** One day's line, without its newline. */
  function DayText(d: Day): string {
    DayOpening + (NatToString(d.0) + (DayClosing + Stars(d.1)))
  }

  function DayTexts(days: seq<Day>): seq<string> {
    seq(|days|, i requires 0 <= i < |days| => DayText(days[i]))
  }

  /** The days from the latest to the earliest. */
  function LatestFirst(days: seq<Day>): (r: seq<Day>)
    ensures multiset(r) == multiset(days)
    ensures forall i, j :: 0 <= i < j < |r| ==> r[i].0 >= r[j].0
  {
    SortDesc(days, DayNumber)
  }

  /** `getStats` with the snapshot given instead of fetched. */
  function GetStats(members: Members, userId: string): string {
    match Lookup(members, userId)
    case None => NotFound(userId)
    case Some(m) =>
      if |m.days| == 0 then NoDays(m.name)
      else Lines([StatsHeading(m.name)] + DayTexts(LatestFirst(m.days)))
  }

  /** An id that is not a key of `members` is reported as unknown. */
  lemma StatsUnknownUser(members: Members, userId: string)
    requires forall i :: 0 <= i < |members| ==> members[i].0 != userId
    ensures GetStats(members, userId) == NotFound(userId)
  {
  }

  /** A member with no completed day is reported by name. */
  lemma StatsNoDays(members: Members, i: nat)
    requires WellFormed(members)
    requires i < |members| && |members[i].1.days| == 0
    ensures GetStats(members, members[i].0) == NoDays(members[i].1.name)
  {
    LookupFindsEntry(members, i);
  }

  /**
   * For a member with completed days the reply is the heading line, then
   * exactly one line per completed day, latest first.
   */
  lemma StatsLines(members: Members, i: nat)
    requires WellFormed(members)
    requires i < |members| && |members[i].1.days| > 0
    requires '\n' !in members[i].1.name
    ensures SplitLines(GetStats(members, members[i].0))
         == [StatsHeading(members[i].1.name)] + DayTexts(LatestFirst(members[i].1.days))
  {
    LookupFindsEntry(members, i);
    var m := members[i].1;
    var days := DayTexts(LatestFirst(m.days));
    HeadingNoNewline(m.name);
    forall k | 0 <= k < |days| ensures '\n' !in days[k] {
      DayTextNoNewline(LatestFirst(m.days)[k]);
    }
    var lines := [StatsHeading(m.name)] + days;
    assert forall k :: 0 <= k < |lines| ==> '\n' !in lines[k] by {
      forall k | 0 <= k < |lines| ensures '\n' !in lines[k] {
        if k > 0 {
          assert lines[k] == days[k - 1];
        }
      }
    }
    SplitLinesOfLines(lines);
  }

  /** What a day line shows: its day number and its number of stars. */
  function Reading(d: Day): (nat, nat) {
    (d.0, StarCount(d.1))
  }

  /** The readings of `days`, in order. */
  function Shown(days: seq<Day>): seq<Option<(nat, nat)>> {
    seq(|days|, k requires 0 <= k < |days| => Some(Reading(days[k])))
  }

  /** Each line read back as a day line. */
  function ReadBack(lines: seq<string>): seq<Option<(nat, nat)>> {
    seq(|lines|, k requires 0 <= k < |lines| => ParseDayText(lines[k]))
  }

  /** Readings whose day numbers strictly decrease. */
  ghost predicate StrictlyLatestFirst(readings: seq<Option<(nat, nat)>>) {
    forall k, l :: 0 <= k < l < |readings| ==>
      readings[k].Some? && readings[l].Some? && readings[k].value.0 > readings[l].value.0
  }

  /**
   * The reply of a member with completed days reads back: after the
   * heading, the lines read back as the completed days, latest first;
   * each line names a completed day and its number of stars, every
   * completed day has its line, and the day numbers strictly decrease.
   */
  lemma StatsReadBack(members: Members, i: nat)
    requires WellFormed(members)
    requires i < |members| && |members[i].1.days| > 0
    requires '\n' !in members[i].1.name
    ensures var lines := SplitLines(GetStats(members, members[i].0));
            var days := members[i].1.days;
            && |lines| == |days| + 1
            && lines[0] == StatsHeading(members[i].1.name)
            && ReadBack(lines[1..]) == Shown(LatestFirst(days))
            && (forall r :: r in ReadBack(lines[1..]) ==> r in Shown(days))
            && (forall r :: r in Shown(days) ==> r in ReadBack(lines[1..]))
            && StrictlyLatestFirst(ReadBack(lines[1..]))
  {
    var days := members[i].1.days;
    var sorted := LatestFirst(days);
    var lines := SplitLines(GetStats(members, members[i].0));
    StatsLines(members, i);
    LatestFirstStrict(days);
    assert |sorted| == |days| by {
      assert |multiset(sorted)| == |multiset(days)|;
    }
    assert lines[1..] == DayTexts(sorted);
    DayLinesReadBack(sorted, days);
  }

  /** The day lines of a reordering of `days` in decreasing order read back as those days. */
  lemma DayLinesReadBack(sorted: seq<Day>, days: seq<Day>)
    requires multiset(sorted) == multiset(days)
    requires forall k, l :: 0 <= k < l < |sorted| ==> sorted[k].0 > sorted[l].0
    ensures ReadBack(DayTexts(sorted)) == Shown(sorted)
    ensures forall r :: r in Shown(sorted) ==> r in Shown(days)
    ensures forall r :: r in Shown(days) ==> r in Shown(sorted)
    ensures StrictlyLatestFirst(Shown(sorted))
  {
    var texts := DayTexts(sorted);
    forall k | 0 <= k < |sorted| ensures ReadBack(texts)[k] == Shown(sorted)[k] {
      DayTextRoundTrip(sorted[k]);
    }
    forall r | r in Shown(sorted) ensures r in Shown(days) {
      var k :| 0 <= k < |sorted| && Shown(sorted)[k] == r;
      assert sorted[k] in multiset(days);
      var j :| 0 <= j < |days| && days[j] == sorted[k];
      assert Shown(days)[j] == r;
    }
    forall r | r in Shown(days) ensures r in Shown(sorted) {
      var j :| 0 <= j < |days| && Shown(days)[j] == r;
      assert days[j] in multiset(sorted);
      var k :| 0 <= k < |sorted| && sorted[k] == days[j];
      assert Shown(sorted)[k] == r;
    }
  }

  lemma HeadingNoNewline(name: string)
    requires '\n' !in name
    ensures '\n' !in StatsHeading(name)
  {
  }

  lemma DayTextNoNewline(d: Day)
    ensures '\n' !in DayText(d)
  {
    NoColonInDigits(NatToString(d.0));
  }

  /**
   * Day keys are unique, so the days are listed in strictly decreasing
   * order, each exactly once.
   */
  lemma LatestFirstStrict(days: seq<Day>)
    requires DistinctKeys(days, DayNumber)
    ensures var r := LatestFirst(days);
            && multiset(r) == multiset(days)
            && forall i, j :: 0 <= i < j < |r| ==> r[i].0 > r[j].0
  {
    SortDescStrict(days, DayNumber);
  }

  const DayOpening := "\t**Day "
  const DayClosing := ":**"

  /** The number of stars a star list shows, if it is one `Stars` can produce. */
  function StarsValue(stars: string): Option<nat> {
    if stars == "" then Some(0)
    else if stars == Star then Some(1)
    else if stars == Star + Star then Some(2)
    else None
  }

  lemma StarsValueOf(parts: set<string>)
    ensures StarsValue(Stars(parts)) == Some(StarCount(parts))
  {
    if "1" !in parts && "2" in parts {
      assert Stars(parts) == Star;
    }
  }

  /**
   * Reads a day line back: the day number between "Day " and the colon,
   * and the number of stars after it.
   */
  function ParseDayText(line: string): Option<(nat, nat)> {
    match After(line, DayOpening)
    case None => None
    case Some(tail) =>
      var digits := TakeUntil(tail, ':');
      if |digits| == 0 || !AllDigits(digits) then None
      else
        match After(tail[|digits|..], DayClosing)
        case None => None
        case Some(stars) =>
          match StarsValue(stars)
          case None => None
          case Some(count) => Some((ParseNat(digits), count))
  }

  /** Each day line names its day and shows its number of stars. */
  lemma DayTextRoundTrip(d: Day)
    ensures ParseDayText(DayText(d)) == Some((d.0, StarCount(d.1)))
  {
    ParseDayPieces(NatToString(d.0), Stars(d.1));
    StarsValueOf(d.1);
    ParseNatToString(d.0);
  }

  /** The parser splits a line at the first colon and reads both halves. */
  lemma ParseDayPieces(digits: string, stars: string)
    requires |digits| > 0 && AllDigits(digits)
    ensures ParseDayText(DayOpening + (digits + (DayClosing + stars)))
         == match StarsValue(stars)
            case None => None
            case Some(count) => Some((ParseNat(digits), count))
  {
    var rest := DayClosing + stars;
    var tail := digits + rest;
    AfterOf(DayOpening, tail);
    NoColonInDigits(digits);
    TakeUntilPrefix(digits, rest, ':');
    assert tail[|digits|..] == rest;
    AfterOf(DayClosing, stars);
  }

  lemma NoColonInDigits(digits: string)
    requires AllDigits(digits)
    ensures ':' !in digits && '\n' !in digits
  {
    forall k | 0 <= k < |digits| ensures digits[k] != ':' && digits[k] != '\n' {
      assert IsDigit(digits[k]);
    }
  }
}
