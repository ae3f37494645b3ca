/**
 * The `/users` renderer: the name and id of every member, in the snapshot's
 * own-property order (ascending numeric id for Advent of Code's numeric ids).
 */
module Users {
  import opened Optional
  import opened Text
  import opened Snapshot

  const UsersHeading := ":santa: **Members list for the current leaderboard**:"
  const NameOpening := "\t:technologist: **"
  const IdOpening := "\t:identification_card: **"
  const Bold := "**"

  /** The three lines of one member: name, id, and an empty separator. */
  function MemberBlock(e: Entry): seq<string> {
    [NameOpening + e.1.name + Bold, IdOpening + e.0 + Bold, ""]
  }

  function MemberBlocks(members: Members): (r: seq<string>)
    ensures |r| == 3 * |members|
  {
    if |members| == 0 then [] else MemberBlock(members[0]) + MemberBlocks(members[1..])
  }

  /** `getUsers` with the snapshot given instead of fetched. */
  function GetUsers(members: Members): string {
    Lines([UsersHeading] + MemberBlocks(members))
  }

  /**
   * The (id, name) pairs the reply is meant to show, in the snapshot's
   * own-property order.
   */
  function Roster(members: Members): seq<(string, string)> {
    seq(|members|, i requires 0 <= i < |members| => (members[i].0, members[i].1.name))
  }

  /** Reads the member blocks back into (id, name) pairs. */
  function ParseBlocks(lines: seq<string>): Option<seq<(string, string)>> {
    if |lines| == 0 then Some([])
    else if |lines| < 3 || lines[2] != "" then None
    else
      match (Between(lines[0], NameOpening, Bold), Between(lines[1], IdOpening, Bold), ParseBlocks(lines[3..]))
      case (Some(name), Some(id), Some(rest)) => Some([(id, name)] + rest)
      case _ => None
  }

  /** Reads a `/users` reply back into the roster it shows. */
  function ParseUsers(text: string): Option<seq<(string, string)>> {
    match After(text, UsersHeading + "\n")
    case None => None
    case Some(body) => ParseBlocks(SplitLines(body))
  }

  ghost predicate SingleLine(members: Members) {
    forall i :: 0 <= i < |members| ==> '\n' !in members[i].0 && '\n' !in members[i].1.name
  }

  lemma {:induction false} ParseMemberBlocks(members: Members)
    ensures ParseBlocks(MemberBlocks(members)) == Some(Roster(members))
  {
    if |members| > 0 {
      var e := members[0];
      var lines := MemberBlocks(members);
      assert lines[..3] == MemberBlock(e);
      assert lines[3..] == MemberBlocks(members[1..]);
      BetweenOf(NameOpening, e.1.name, Bold);
      BetweenOf(IdOpening, e.0, Bold);
      ParseMemberBlocks(members[1..]);
      assert Roster(members) == [(e.0, e.1.name)] + Roster(members[1..]) by {
        forall k | 1 <= k < |members| ensures Roster(members)[k] == Roster(members[1..])[k - 1] {
          assert members[1..][k - 1] == members[k];
        }
      }
    }
  }

  lemma {:induction false} MemberBlocksSingleLine(members: Members)
    requires SingleLine(members)
    ensures forall k :: 0 <= k < |MemberBlocks(members)| ==> '\n' !in MemberBlocks(members)[k]
  {
    if |members| > 0 {
      var e := members[0];
      var block := MemberBlock(e);
      var rest := members[1..];
      assert SingleLine(rest) by {
        forall i | 0 <= i < |rest| ensures '\n' !in rest[i].0 && '\n' !in rest[i].1.name {
          assert rest[i] == members[i + 1];
        }
      }
      MemberBlocksSingleLine(rest);
      assert '\n' !in e.0 && '\n' !in e.1.name;
      assert forall k :: 0 <= k < 3 ==> '\n' !in block[k];
    }
  }

  /**
   * The reply lists every member exactly once, in the snapshot's
   * own-property order (ascending numeric id for Advent of Code's numeric
   * ids), and the ids and names can be read back from it as long as none
   * spans lines.
   */
  lemma UsersRoundTrip(members: Members)
    requires SingleLine(members)
    ensures ParseUsers(GetUsers(members)) == Some(Roster(members))
  {
    var blocks := MemberBlocks(members);
    assert GetUsers(members) == (UsersHeading + "\n") + Lines(blocks);
    AfterOf(UsersHeading + "\n", Lines(blocks));
    MemberBlocksSingleLine(members);
    SplitLinesOfLines(blocks);
    ParseMemberBlocks(members);
  }
}
