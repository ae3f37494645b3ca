# Advent of Code leaderboard bot: a Dafny model

The bot is a Cloudflare worker that answers Discord slash commands about
one private Advent of Code leaderboard. It has three renderers and a
request handler:

- `/lb` draws the members ranked by local score as a plain-text table.
- `/stats <id>` lists one member's completed days, latest first, with a
  star per completed part.
- `/users` lists every member's name and id.
- The request handler routes by path and method and checks the request
  signature. It answers Discord's ping, dispatches the command name
  case-insensitively, and builds the `/invite` link.

This project models those pieces in Dafny:

- The leaderboard document (the `members` object) becomes an explicit
  snapshot. It is a sequence of `(id, member)` entries in JavaScript's
  own-property order.
- The signature check becomes its verdict, a boolean on the request.
- The request body arrives already decoded as an `Interaction`.
- Every reply is a value of the `Response` datatype.

Modules, one per file:

| file | module | models |
|---|---|---|
| `optional.dfy` | `Optional` | the absent-or-present value |
| `text.dfy` | `Text` | `padStart`, decimal rendering of numbers, ASCII `toLowerCase`, lines of text |
| `sorting.dfy` | `Sorting` | the stable sort `Array.prototype.sort` performs with a descending comparator |
| `snapshot.dfy` | `Snapshot` | members, completed days, `hasOwnProperty` lookup |
| `leaderboard.dfy` | `Leaderboard` | `getPadding`, `getLeaderboard` |
| `stats.dfy` | `Stats` | `getStats` |
| `users.dfy` | `Users` | `getUsers` |
| `commands.dfy` | `Commands` | the four registered command names and the `switch` that matches them |
| `server.dfy` | `Server` | `fetch`, `handleGet`, `handlePost` |
| `examples.dfy` | `Examples` | a two-member snapshot with tied scores |

Facts about the code that shape the model:

- The place, stars and score columns of the leaderboard are a fixed five
  characters wide; the user column is as wide as the longest name.
- Every cell is centred with `getPadding`.
- A stats line shows the day number as printed and one ` :star:` per
  completed part.
- The users list gives each member a three-line block: name, id, and an
  empty line.

## Model

| member | source | states |
|---|---|---|
| Leaderboard.GetPadding | src/aoc.js:65-69 | the two pads add up to the width, and the right pad is half the free space rounded up, for free space of either sign |
| Leaderboard.CeilHalf | src/aoc.js:66 | the computed `(d + 1) / 2` is `Math.ceil(d / 2)` for either sign of `d`: the one integer whose double is `d` or `d + 1` |
| Leaderboard.CellLayout | src/aoc.js:96-99 | a word shorter than its cell is centred in it, with the odd space on the left, and the cell is exactly as wide as asked, ending in its border |
| Leaderboard.CellLength | src/aoc.js:138-146 | a cell is exactly as wide as asked when its word is shorter than that, and otherwise the word plus one border character |
| Leaderboard.CellOverflow | src/aoc.js:145-146 | a word at least as long as its cell is not padded and is followed directly by the border |
| Leaderboard.FiveLetterCell | src/aoc.js:107-117 | "Place", "Stars" and "Score" sit in their columns with one space on each side |
| Leaderboard.RankMembers | src/aoc.js:75-76 | the ranking is a permutation of the members in non-increasing local-score order |
| Leaderboard.RankMembersStable | src/aoc.js:75-76 | members with equal scores keep their snapshot order |
| Leaderboard.TiesByAscendingId | src/aoc.js:75-76 | when every id is a decimal number listed in ascending numeric order, as `Object.entries` lists integer-like keys, the members tied on a score are ranked by ascending id |
| Leaderboard.RankAllTied | src/aoc.js:75-76 | members all tied on score are listed unchanged |
| Leaderboard.MaxNameLength | src/aoc.js:89 | the user-column length bounds every name's length and is the length of some name |
| Leaderboard.UserLength | src/aoc.js:89-119 | with members, the user column is as wide as the longest name; without, every `padStart` target derived from the stand-in is at most its word's length, so no word is padded, as with `-Infinity` |
| Leaderboard.TableLines | src/aoc.js:121-151 | the table is the five header lines, then each ranked member's row, numbered from 1, followed by a border |
| Leaderboard.LeaderboardLayout | src/aoc.js:121-151 | in the drawn table, line `5 + 2i` is the row of the `i`-th ranked member with place `i + 1`, and every even line after the header is a border |
| Leaderboard.LeaderboardText | src/aoc.js:73-154 | `getLeaderboard` answers the heading, then the fenced table one line per table line: title border, title, column headers between two borders, and the row of the `i`-th ranked member with place `i + 1` followed by a border |
| Leaderboard.RowLayout | src/aoc.js:129-146 | a member row holds place, stars, score and name, each centred between two borders, when the numbers have at most seven digits |
| Leaderboard.EmptyLeaderboard | src/aoc.js:89-126 | an empty snapshot gives the heading, the title and the column headers only, with the user column collapsed to its header |
| Leaderboard.HeaderTextWidth | src/aoc.js:107-119 | the column-header line is as wide as the table exactly when the longest name has at least two characters |
| Leaderboard.RowWidth | src/aoc.js:134-146 | a member row is as wide as the table when place, stars and score have at most seven digits |
| Leaderboard.LeaderboardWidths | src/aoc.js:86-149 | every table line except the column headers is `TableWidth` characters wide, and the column headers are that wide iff the longest name has at least two characters |
| Leaderboard.LeaderboardDrawnWidths | src/aoc.js:86-153 | every line of the fenced table `getLeaderboard` returns is as wide as the table, except the column headers, which are that wide iff the longest name has at least two characters |
| Sorting.SortDesc | src/aoc.js:75-76 | the sort returns a permutation of its input in non-increasing key order |
| Sorting.SortDescStable | src/aoc.js:75-76 | for every key, the elements carrying it come out in their input order |
| Sorting.SortDescStrict | src/aoc.js:170 | input with pairwise distinct keys comes out in strictly decreasing key order |
| Sorting.WithKeyIncreasing | src/aoc.js:75-76 | filtering by key keeps only elements of the input that carry the key, in their relative order, so strictly increasing input gives strictly increasing output |
| Sorting.SortDescAllTied | src/aoc.js:75-76 | input whose keys are all equal comes out unchanged |
| Text.PadStart | src/aoc.js:94 | `padStart` returns a string of the target length when the input is shorter, and the input's length otherwise |
| Text.PadStartShape | src/aoc.js:98-99 | the padded string ends with the input and holds only filler before it |
| Text.NatToString | src/aoc.js:130-132 | a number renders as at least one decimal digit with no leading zero |
| Text.ParseNatToString | src/aoc.js:130-132 | the rendered digits read back as the number |
| Text.NatToStringLength | src/aoc.js:130-132 | a number renders in at most `k` digits exactly when it is below `10^k` |
| Text.ToLower | src/server.js:52 | lower-casing keeps the length and lower-cases each letter in place |
| Text.ToLowerIdempotent | src/server.js:52-53 | lower-casing twice is lower-casing once |
| Snapshot.Lookup | src/aoc.js:157 | the lookup finds nothing exactly when no entry has the id, and what it finds is an entry with that id |
| Snapshot.LookupFindsEntry | src/aoc.js:157-162 | with unique ids, looking up a member's id yields that member |
| Stats.StatsUnknownUser | src/aoc.js:157-161 | an id that is not in the snapshot is answered with "`<id>` does not exist, use /users command to list users and their IDs" |
| Stats.StatsNoDays | src/aoc.js:165-169 | a member with no completed day is answered with "No days completed for user **`<name>`**" |
| Stats.StatsLines | src/aoc.js:170-183 | otherwise the reply splits into the heading line and exactly one line per completed day, latest first |
| Stats.StatsReadBack | src/aoc.js:155-185 | `getStats` for a member with completed days: after the heading, the lines read back as the days sorted latest first; each line is a completed day with its star count, every completed day has a line, and day numbers strictly decrease |
| Stats.LatestFirst | src/aoc.js:170 | the days are reordered, not changed, into non-increasing day-number order |
| Stats.LatestFirstStrict | src/aoc.js:170 | with unique day keys each day is listed once, in strictly decreasing numeric order |
| Stats.DayTextRoundTrip | src/aoc.js:173-182 | each day line `DayText` draws can be read back into its day number and its number of stars |
| Stats.StarsCount | src/aoc.js:176-181 | a day shows one ` :star:` per completed part among "1" and "2", whatever other keys the day holds |
| Stats.StarsValueOf | src/aoc.js:176-181 | the star list reads back as the number of completed parts |
| Users.UsersRoundTrip | src/aoc.js:186-195 | `getUsers` lists every member once, in the snapshot's own-property order (ascending numeric id for Advent of Code's numeric ids): the reply reads back as each member's id paired with its name |
| Users.ParseMemberBlocks | src/aoc.js:190-193 | the three-line blocks `MemberBlock` draws read back as each member's id and name, in order |
| Commands.Resolve | src/server.js:52-97 | a resolved command matches the input name up to letter case |
| Commands.ResolveExactly | src/server.js:52-99 | a name selects command `c` iff its lower-cased form is `c`'s name, and selects nothing iff it is no command's name |
| Commands.ResolveIgnoresCase | src/server.js:52 | lower-casing the input first changes nothing |
| Commands.NameLowerCase | src/commands.js:1-24 | the registered names are already lower-case |
| Commands.NamesDistinct | src/commands.js:1-24 | no two commands share a name |
| Server.HandleGet | src/server.js:29-31 | the health check is a plain 200 reply |
| Server.RunCommand | src/server.js:53-96 | `/stats` without an option throws and no other command does; every other reply is a 200 JSON message: a channel message flagged IS_COMPONENTS_V2 for `/lb`, `/stats` and `/users`, an ephemeral channel message for `/invite` |
| Server.HandlePost | src/server.js:37-105 | a ping and nothing else gets PONG; a 400 "Unknown Type" goes exactly to a non-ping that is not a known application command; only a stats command without options throws |
| Server.Fetch | src/server.js:108-142 | 404 exactly off the root path; the health check exactly for GET on the root; 401 exactly for an unsigned POST on the root; 405 exactly for other methods on the root; a JSON reply only for a signed POST on the root |
| Server.DispatchesCommand | src/server.js:52-96 | a signed command whose name is `c`'s in any letter case runs `c` and nothing else |
| Server.FetchIgnoresCase | src/server.js:52 | lower-casing the command name never changes the reply |
| Server.HealthCheck | src/server.js:117-119 | GET on the root answers 200 with the waving hand followed by the application id |
| Server.InviteReply | src/server.js:86-96 | `/invite` answers with an ephemeral channel message whose link (`InviteUrl`) carries the application id between the authorize URL and the scope |
| Server.UsersReply | src/server.js:75-85 | `/users` answers with a components message from which the snapshot's roster reads back |
| Server.StatsUnknownReply | src/server.js:64-74 | `/stats` for an id not in the snapshot answers with the not-found text for that id |
| Server.LeaderboardReply | src/server.js:53-63 | `/lb` answers with a components message carrying the leaderboard table |
| Examples.TiedScoresKeepOrder | src/aoc.js:75-76 | two members tied on 40 points keep the snapshot's order, here ascending id: "1" before "2" |
| Examples.TiedStats | src/aoc.js:157-169 | in that snapshot the member without days gets the no-days reply and an unknown id the not-found reply |

## Left out

- `fetchStats` (src/aoc.js:26-63) is replaced by the snapshot parameter. It covers the network request, the session cookie, caching and JSON decoding.
- `verifyKey` is replaced by its verdict. The Ed25519 signature check and the header reads are not modelled.
- Server.Fetch: the 401 clause assumes `verifyKey` returns its verdict synchronously, as in discord-interactions 3.x. It is called without `await` (src/server.js:128-134). From version 4 it returns a Promise, which is always truthy, so the 401 branch would never be taken. The dependency version is not part of this model.
- `request.json()`, `JSON.stringify` and the response headers are left out. Requests arrive decoded, and replies are `Response` values.
- Logging (`console.log`, `console.error`) has no observable effect on replies and is left out.
- The cron handler `scheduled` and `src/message.js` are not part of this model.
- HTTP status of `Server.Thrown`: the status the worker runtime gives an uncaught exception is not modelled.
- A command interaction without `data` or `data.name` would throw. The model's `Interaction` always carries a name.
- An interaction `type` that is not a number is not modelled. `kind` is an integer.
- Member names are strings. Advent of Code sends `null` for anonymous members, where `name.length` would throw. That case is not modelled.
- Lengths count Unicode scalar values. JavaScript counts UTF-16 code units, so names outside the Basic Multilingual Plane are measured differently.
- Text.ToLower: only ASCII letters are lower-cased. `toLowerCase` maps every Unicode letter, but the command names it is compared against are ASCII.
- Scores, stars and day numbers are natural numbers. Day keys are assumed to be the canonical decimal spelling of their number, the form `${day}` prints. Numbers printed into the replies are taken to be below 10^21, from which JavaScript prints them in exponent form.
- Leaderboard.UserLength: `-Infinity` from the `reduce` is represented by `Leaderboard.NoUserLength` (-26). The targets `padStart` gets from `-Infinity` are `-Infinity` or `NaN`; those from the stand-in are at most the length of their word. Either way no word is padded.
- Leaderboard.LeaderboardWidths: stated only for places, stars and scores below ten million and a non-empty snapshot. A cell holds at most seven characters of text, so numbers of eight or more digits overflow their columns.
- Leaderboard.LeaderboardDrawnWidths: carries the same bounds as Leaderboard.LeaderboardWidths, for the same reason.
- Server.RunCommand: `/stats` without an option throws. Discord itself sends the option, because the command declares it required (src/commands.js:9-14).
- Command registration with Discord (names, descriptions, option types) is modelled only by the names.
