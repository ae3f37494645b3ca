/**
 * The leaderboard document once fetched and decoded: the `members` object of
 * a private Advent of Code leaderboard.
 *
 * A JSON object is modelled as the list of its own properties in the order
 * `Object.entries`, `Object.keys` and `for…in` visit them: integer-like keys
 * first, in ascending numeric order, then the others in insertion order
 * (OrdinaryOwnPropertyKeys, section 10.1.11.1 of ECMA-262).
 */
module Snapshot {
  import opened Optional
  import opened Sorting
  import Text

  /**
   * One completed day: the day number and the own keys of its object
   * ("1" for the first star, "2" for the second).
   */
  type Day = (nat, set<string>)

  datatype Member = Member(
    name: string,
    localScore: nat,
    stars: nat,
    days: seq<Day>)      // `completion_day_level`

  /** A member together with its id, the key it has in `members`. */
  type Entry = (string, Member)

  type Members = seq<Entry>

  function DayNumber(d: Day): int { d.0 }

  function Score(e: Entry): int { e.1.localScore }

  /** The numeric value of a member id made of decimal digits. */
  function IdValue(e: Entry): int
    requires Text.AllDigits(e.0)
  {
    Text.ParseNat(e.0)
  }

  /**
   * The own-property order of a `members` object whose keys are all
   * integer-like, as Advent of Code's member ids are: ascending numeric id.
   */
  ghost predicate NumericIdOrder(members: Members) {
    && (forall i :: 0 <= i < |members| ==> Text.AllDigits(members[i].0))
    && (forall i, j :: 0 <= i < j < |members| ==> IdValue(members[i]) < IdValue(members[j]))
  }

  /** Keys of a JSON object are unique; the snapshot inherits that. */
  ghost predicate WellFormed(members: Members) {
    && (forall i, j :: 0 <= i < j < |members| ==> members[i].0 != members[j].0)
    && (forall i :: 0 <= i < |members| ==> DistinctKeys(members[i].1.days, DayNumber))
  }

  /** `members.hasOwnProperty(id) ? members[id] : undefined`. */
  function Lookup(members: Members, id: string): (r: Option<Member>)
    ensures r.None? <==> forall i :: 0 <= i < |members| ==> members[i].0 != id
    ensures r.Some? ==> (id, r.value) in members
  {
    if |members| == 0 then None
    else if members[0].0 == id then Some(members[0].1)
    else Lookup(members[1..], id)
  }

  /** In a well-formed snapshot the entry with a given id is the one found. */
  lemma {:induction false} LookupFindsEntry(members: Members, i: nat)
    requires WellFormed(members)
    requires i < |members|
    ensures Lookup(members, members[i].0) == Some(members[i].1)
  {
    if i > 0 {
      var tail := members[1..];
      assert WellFormed(tail) by {
        forall a, b | 0 <= a < b < |tail| ensures tail[a].0 != tail[b].0 {
          assert tail[a] == members[a + 1] && tail[b] == members[b + 1];
        }
        forall a | 0 <= a < |tail| ensures DistinctKeys(tail[a].1.days, DayNumber) {
          assert tail[a] == members[a + 1];
        }
      }
      assert tail[i - 1] == members[i];
      LookupFindsEntry(tail, i - 1);
    }
  }
}
