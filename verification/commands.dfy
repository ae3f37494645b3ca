/**
 * The slash commands the bot registers, and how an incoming command name
 * is matched against them: both sides are lower-cased, so `/LB` and `/lb`
 * are the same command.
 */
module Commands {
  import opened Optional
  import opened Text

  datatype Command =
    | LeaderboardCommand
    | StatsCommand        // one required string option, the member id
    | UsersCommand
    | InviteCommand

  function Name(c: Command): string {
    match c
    case LeaderboardCommand => "lb"
    case StatsCommand => "stats"
    case UsersCommand => "users"
    case InviteCommand => "invite"
  }

  /** One `case` of the `switch`: the lower-cased input against a lower-cased name. */
  predicate Matches(name: string, c: Command) {
    ToLower(name) == ToLower(Name(c))
  }

  /** The `switch` on the lower-cased name: the first command that matches, if any. */
  function Resolve(name: string): (r: Option<Command>)
    ensures r.Some? ==> Matches(name, r.value)
  {
    if Matches(name, LeaderboardCommand) then Some(LeaderboardCommand)
    else if Matches(name, StatsCommand) then Some(StatsCommand)
    else if Matches(name, UsersCommand) then Some(UsersCommand)
    else if Matches(name, InviteCommand) then Some(InviteCommand)
    else None
  }

  /** The registered names are already lower-case. */
  lemma NameLowerCase(c: Command)
    ensures ToLower(Name(c)) == Name(c)
  {
    var n := Name(c);
    assert forall i :: 0 <= i < |n| ==> 'a' <= n[i] <= 'z' by {
      match c
      case LeaderboardCommand =>
      case StatsCommand =>
      case UsersCommand =>
      case InviteCommand =>
    }
    ToLowerNoUpper(n);
  }

  /** No two commands share a name, so a name selects at most one command. */
  lemma NamesDistinct(c: Command, d: Command)
    requires c != d
    ensures Name(c) != Name(d)
  {
    assert |Name(c)| != |Name(d)| || Name(c)[0] != Name(d)[0];
  }

  /**
   * A name resolves to `c` exactly when it is `c`'s name up to the case of
   * its letters, and to nothing when it is no command's name.
   */
  lemma ResolveExactly(name: string, c: Command)
    ensures Resolve(name) == Some(c) <==> ToLower(name) == Name(c)
    ensures Resolve(name).None? <==> forall d :: ToLower(name) != Name(d)
  {
    NameLowerCase(LeaderboardCommand);
    NameLowerCase(StatsCommand);
    NameLowerCase(UsersCommand);
    NameLowerCase(InviteCommand);
    forall d | d != c ensures Name(d) != Name(c) {
      NamesDistinct(d, c);
    }
  }

  /** Lower-casing the input first changes nothing. */
  lemma ResolveIgnoresCase(name: string)
    ensures Resolve(ToLower(name)) == Resolve(name)
  {
    ToLowerIdempotent(name);
    forall c ensures Matches(ToLower(name), c) == Matches(name, c) {
    }
  }
}
