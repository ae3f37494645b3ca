/**
 * The `/lb` renderer: members ranked by local score, drawn as a plain-text
 * table inside a Markdown code fence.
 *
 * The place, stars and score columns are a fixed five characters wide; only
 * the user column follows the data (the longest member name). Every column
 * is that width plus one space on each side plus its right border.
 */
module Leaderboard {
  import opened Text
  import opened Sorting
  import opened Snapshot

  const PlaceLength := 5
  const StarsLength := 5
  const ScoreLength := 5

  const Heading := ":santa: **Current Leaderboard**\n"
  const Fence := "```"
  const Title := "Advent of Code"

  datatype Padding = Padding(leftPad: int, rightPad: int)

  /**
   * Splits `width` so that a word padded on the left to `leftPad` and
   * followed by a border padded to `rightPad` sits in the middle of the
   * cell; `rightPad` is half the free space rounded up (it is zero or
   * negative when the word does not fit).
   */
  function GetPadding(width: int, word: string): (p: Padding)
    ensures p.leftPad + p.rightPad == width
    ensures width - |word| <= 2 * p.rightPad <= width - |word| + 1
  {
    var rightPad := CeilHalf(width - |word|);
    Padding(width - rightPad, rightPad)
  }

  /**
   * `Math.ceil(d / 2)` for an integer `d` of either sign: the one integer
   * whose double is `d` or `d + 1`.
   */
  function CeilHalf(d: int): (h: int)
    ensures d <= 2 * h <= d + 1
  {
    (d + 1) / 2
  }

  /** One table cell: the word, padded by `GetPadding`, and its right border. */
  function Cell(word: string, width: int): string {
    var p := GetPadding(width, word);
    PadStart(word, p.leftPad, ' ') + PadStart("|", p.rightPad, ' ')
  }

  /**
   * `word` in the middle of `room` characters, the odd space (if any) on
   * the left; a word that does not fit is left as it is.
   */
  function Centred(word: string, room: int): string {
    var gap := if |word| < room then room - |word| else 0;
    Repeat(' ', gap - gap / 2) + word + Repeat(' ', gap / 2)
  }

  /**
   * A word shorter than the cell is centred in it, and the cell is exactly
   * `width` characters ending in the border.
   */
  lemma CellLayout(word: string, width: int)
    requires |word| < width
    ensures Cell(word, width) == Centred(word, width - 1) + "|"
    ensures |Cell(word, width)| == width
  {
    var gap := width - 1 - |word|;
    var p := GetPadding(width, word);
    assert Centred(word, width - 1) == Repeat(' ', gap - gap / 2) + word + Repeat(' ', gap / 2);
    assert p.leftPad - |word| == gap - gap / 2;
    assert PadStart(word, p.leftPad, ' ') == Repeat(' ', gap - gap / 2) + word;
    assert PadStart("|", p.rightPad, ' ') == Repeat(' ', gap / 2) + "|";
  }

  /** A word that does not fit is not padded, so the cell overflows. */
  lemma CellOverflow(word: string, width: int)
    requires |word| >= width
    ensures Cell(word, width) == word + "|"
  {
  }

  function ColumnWidth(contentLength: int): int {
    contentLength + 2 + 1
  }

  function TableWidth(userLength: int): int {
    PlaceLength + StarsLength + ScoreLength + userLength + 2 * 4 + 5
  }

  /**
   * `Object.entries(members).sort((a, b) => b.local_score - a.local_score)`:
   * a permutation of the members in non-increasing score order.
   */
  function RankMembers(members: Members): (r: Members)
    ensures multiset(r) == multiset(members)
    ensures |r| == |members|
    ensures forall i, j :: 0 <= i < j < |r| ==> r[i].1.localScore >= r[j].1.localScore
  {
    var r := SortDesc(members, Score);
    assert |r| == |multiset(r)| == |multiset(members)| == |members|;
    assert Descending(r, Score);
    r
  }

  /** Members with equal scores keep their snapshot order in the ranking. */
  lemma RankMembersStable(members: Members, score: nat)
    ensures WithKey(RankMembers(members), Score, score) == WithKey(members, Score, score)
  {
    SortDescStable(members, Score, score);
  }

  /**
   * When the snapshot's ids are Advent of Code's numeric ids, members tied
   * on score are ranked by ascending id.
   */
  lemma TiesByAscendingId(members: Members, score: nat)
    requires NumericIdOrder(members)
    ensures var tied := WithKey(RankMembers(members), Score, score);
            && (forall i :: 0 <= i < |tied| ==> tied[i] in members && tied[i].1.localScore == score)
            && forall i, j :: 0 <= i < j < |tied| ==> IdValue(tied[i]) < IdValue(tied[j])
  {
    var tied := WithKey(RankMembers(members), Score, score);
    var order := (e: Entry) => if AllDigits(e.0) then IdValue(e) else 0;
    RankMembersStable(members, score);
    WithKeyIncreasing(members, Score, score, order);
    forall i | 0 <= i < |tied| ensures tied[i] in members && tied[i].1.localScore == score {
      assert tied[i] in WithKey(members, Score, score);
    }
  }

  /** Members all tied on score are listed in snapshot order. */
  lemma RankAllTied(members: Members, score: nat)
    requires forall i :: 0 <= i < |members| ==> members[i].1.localScore == score
    ensures RankMembers(members) == members
  {
    SortDescAllTied(members, Score, score);
  }

  /** The longest member name, as the `reduce` with `Math.max` finds it. */
  function MaxNameLength(ms: Members): (n: nat)
    requires |ms| > 0
    ensures forall i :: 0 <= i < |ms| ==> |ms[i].1.name| <= n
    ensures exists i :: 0 <= i < |ms| && |ms[i].1.name| == n
  {
    if |ms| == 1 then |ms[0].1.name|
    else
      var rest := MaxNameLength(ms[1..]);
      assert forall i :: 1 <= i < |ms| ==> ms[i] == ms[1..][i - 1];
      if |ms[0].1.name| >= rest then |ms[0].1.name| else rest
  }

  function TitleBorder(tableWidth: int): string {
    "+" + PadStart("+", tableWidth - 1, '-')
  }

  function TitleText(tableWidth: int): string {
    "|" + Cell(Title, tableWidth - 1)
  }

  function HeaderBorder(userLength: int): string {
    "+"
      + PadStart("+", ColumnWidth(PlaceLength), '-')
      + PadStart("+", ColumnWidth(StarsLength), '-')
      + PadStart("+", ColumnWidth(ScoreLength), '-')
      + PadStart("+", ColumnWidth(userLength), '-')
  }

  function HeaderText(userLength: int): string {
    "|"
      + Cell("Place", ColumnWidth(PlaceLength))
      + Cell("Stars", ColumnWidth(StarsLength))
      + Cell("Score", ColumnWidth(ScoreLength))
      + Cell("User", ColumnWidth(userLength))
  }

  function Row(place: nat, m: Member, userLength: int): string {
    "|"
      + Cell(NatToString(place), ColumnWidth(PlaceLength))
      + Cell(NatToString(m.stars), ColumnWidth(StarsLength))
      + Cell(NatToString(m.localScore), ColumnWidth(ScoreLength))
      + Cell(m.name, ColumnWidth(userLength))
  }

  /** The lines of the table, before they are drawn. */
  datatype TableLine =
    | TitleBorderLine
    | TitleLine
    | BorderLine
    | ColumnHeaderLine
    | MemberLine(place: nat, member: Member)

  /** One table line drawn for a user column sized to `userLength`. */
  function Render(line: TableLine, userLength: int): string {
    match line
    case TitleBorderLine => TitleBorder(TableWidth(userLength))
    case TitleLine => TitleText(TableWidth(userLength))
    case BorderLine => HeaderBorder(userLength)
    case ColumnHeaderLine => HeaderText(userLength)
    case MemberLine(place, m) => Row(place, m, userLength)
  }

  /** Each of `rows` followed by `border`, as the row loop appends them. */
  function Interleave<T>(rows: seq<T>, border: T): (r: seq<T>)
    ensures |r| == 2 * |rows|
    ensures forall i :: 0 <= i < |rows| ==> r[2 * i] == rows[i] && r[2 * i + 1] == border
  {
    if |rows| == 0 then []
    else
      var rest := Interleave(rows[1..], border);
      var r := [rows[0], border] + rest;
      assert forall i :: 1 <= i < |rows| ==> r[2 * i] == rest[2 * i - 2] && r[2 * i + 1] == rest[2 * i - 1];
      r
  }

  /** A row line for each ranked member, numbered from 1. */
  function MemberLines(ranked: Members): seq<TableLine> {
    seq(|ranked|, i requires 0 <= i < |ranked| => MemberLine(i + 1, ranked[i].1))
  }

  const HeaderLines := [TitleBorderLine, TitleLine, BorderLine, ColumnHeaderLine, BorderLine]

  /**
   * The table: title border and title, the column headers between two
   * borders, then each ranked member's row followed by a border.
   */
  function TableLines(ranked: Members): (lines: seq<TableLine>)
    ensures |lines| == 5 + 2 * |ranked|
    ensures lines[..5] == HeaderLines
    ensures forall i :: 0 <= i < |ranked| ==>
              lines[5 + 2 * i] == MemberLine(i + 1, ranked[i].1) && lines[6 + 2 * i] == BorderLine
  {
    var lines := HeaderLines + Interleave(MemberLines(ranked), BorderLine);
    assert forall i :: 0 <= i < |ranked| ==> lines[5 + 2 * i] == lines[5..][2 * i];
    lines
  }

  /**
   * The `reduce` from `-Infinity` finds no name in an empty snapshot and
   * stays at `-Infinity`. Every `padStart` target derived from it is then
   * `-Infinity` or `NaN`, both of which leave the padded word as it is.
   * This stand-in is small enough to give every such target a value at
   * most the length of its word, which leaves the word as it is too.
   */
  const NoUserLength := -26

  /**
   * The width of the user column: the longest name, or the stand-in when
   * there is none. With the stand-in, every `padStart` target the table
   * derives from it is at most the length of the word it pads, so no word
   * is padded, as with `-Infinity`.
   */
  function UserLength(ranked: Members): (n: int)
    ensures |ranked| > 0 ==>
              && (forall i :: 0 <= i < |ranked| ==> |ranked[i].1.name| <= n)
              && (exists i :: 0 <= i < |ranked| && |ranked[i].1.name| == n)
    ensures |ranked| == 0 ==>
              && TableWidth(n) - 1 <= |"+"|
              && GetPadding(TableWidth(n) - 1, Title).leftPad <= |Title|
              && GetPadding(TableWidth(n) - 1, Title).rightPad <= |"|"|
              && ColumnWidth(n) <= |"+"|
              && GetPadding(ColumnWidth(n), "User").leftPad <= |"User"|
              && GetPadding(ColumnWidth(n), "User").rightPad <= |"|"|
  {
    if |ranked| == 0 then NoUserLength else MaxNameLength(ranked)
  }

  /** `getLeaderboard` with the snapshot given instead of fetched. */
  function GetLeaderboard(members: Members): string {
    var ranked := RankMembers(members);
    Heading + Fence + "\n" + Lines(DrawLines(TableLines(ranked), UserLength(ranked))) + Fence
  }

  /**
   * An empty snapshot gives the title and column headers only: no row, the
   * title border and title unpadded, and the user column collapsed to its
   * header.
   */
  lemma EmptyLeaderboard()
    ensures var drawn := DrawLines(HeaderLines, NoUserLength);
            && GetLeaderboard([]) == Heading + Fence + "\n" + Lines(drawn) + Fence
            && |drawn| == 5
            && drawn[0] == "++"
            && drawn[1] == "|Advent of Code|"
            && drawn[2] == drawn[4] == "+-------+-------+-------++"
            && drawn[3] == "|" + " Place |" + " Stars |" + " Score |" + "User|"
  {
    assert TableLines([]) == HeaderLines;
    EmptyTitle();
    EmptyHeaderBorder();
    EmptyHeaderText();
  }

  lemma EmptyTitle()
    ensures Render(TitleBorderLine, NoUserLength) == "++"
    ensures Render(TitleLine, NoUserLength) == "|Advent of Code|"
  {
    CellOverflow(Title, TableWidth(NoUserLength) - 1);
  }

  lemma EmptyHeaderBorder()
    ensures Render(BorderLine, NoUserLength) == "+-------+-------+-------++"
  {
    assert PadStart("+", ColumnWidth(PlaceLength), '-') == "-------+";
  }

  lemma EmptyHeaderText()
    ensures Render(ColumnHeaderLine, NoUserLength) == "|" + " Place |" + " Stars |" + " Score |" + "User|"
  {
    FixedHeaders();
    CollapsedUserHeader();
  }

  /** The place, stars and score headers, which do not depend on the data. */
  lemma FixedHeaders()
    ensures Cell("Place", ColumnWidth(PlaceLength)) == " Place |"
    ensures Cell("Stars", ColumnWidth(StarsLength)) == " Stars |"
    ensures Cell("Score", ColumnWidth(ScoreLength)) == " Score |"
  {
    PlaceHeader();
    StarsHeader();
    ScoreHeader();
  }

  lemma PlaceHeader()
    ensures Cell("Place", ColumnWidth(PlaceLength)) == " Place |"
  {
    FiveLetterCell("Place");
  }

  lemma StarsHeader()
    ensures Cell("Stars", ColumnWidth(StarsLength)) == " Stars |"
  {
    FiveLetterCell("Stars");
  }

  lemma ScoreHeader()
    ensures Cell("Score", ColumnWidth(ScoreLength)) == " Score |"
  {
    FiveLetterCell("Score");
  }

  lemma CollapsedUserHeader()
    ensures Cell("User", ColumnWidth(NoUserLength)) == "User|"
  {
    CellOverflow("User", ColumnWidth(NoUserLength));
  }

  /** A five-letter word fills its fixed-width column with one space on each side. */
  lemma FiveLetterCell(word: string)
    requires |word| == 5
    ensures Cell(word, ColumnWidth(5)) == " " + word + " |"
  {
    CellLayout(word, ColumnWidth(5));
    assert Centred(word, 7) == Repeat(' ', 1) + word + Repeat(' ', 1);
    assert Repeat(' ', 1) == " ";
  }

  /** Every line drawn. */
  function DrawLines(lines: seq<TableLine>, userLength: int): (r: seq<string>)
    ensures |r| == |lines|
    ensures forall i :: 0 <= i < |lines| ==> r[i] == Render(lines[i], userLength)
  {
    if |lines| == 0 then [] else [Render(lines[0], userLength)] + DrawLines(lines[1..], userLength)
  }

  /**
   * The reply is the heading and a fenced table whose rows list the
   * members in ranked order, numbered 1, 2, ..., each followed by a
   * border, under the title and the column headers.
   */
  lemma LeaderboardLayout(members: Members)
    ensures var ranked := RankMembers(members);
            var lines := TableLines(ranked);
            && |lines| == 5 + 2 * |members|
            && (forall i :: 0 <= i < |members| ==> lines[5 + 2 * i] == MemberLine(i + 1, ranked[i].1))
            && (forall i :: 5 <= i < |lines| && i % 2 == 0 ==> lines[i] == BorderLine)
  {
    BordersBetweenRows(RankMembers(members));
  }

  /**
   * The reply is the heading, then the fenced table one line per table
   * line: title border, title, the column headers between two borders,
   * and each ranked member's row, numbered from 1, followed by a border.
   */
  lemma LeaderboardText(members: Members)
    ensures var ranked := RankMembers(members);
            var userLength := UserLength(ranked);
            var drawn := DrawLines(TableLines(ranked), userLength);
            && GetLeaderboard(members) == Heading + Fence + "\n" + Lines(drawn) + Fence
            && |drawn| == 5 + 2 * |members|
            && drawn[0] == TitleBorder(TableWidth(userLength))
            && drawn[1] == TitleText(TableWidth(userLength))
            && drawn[2] == HeaderBorder(userLength)
            && drawn[3] == HeaderText(userLength)
            && drawn[4] == HeaderBorder(userLength)
            && forall i :: 0 <= i < |members| ==>
                 drawn[5 + 2 * i] == Row(i + 1, ranked[i].1, userLength)
                 && drawn[6 + 2 * i] == HeaderBorder(userLength)
  {
    var ranked := RankMembers(members);
    DrawnTable(ranked, UserLength(ranked));
  }

  /** The table lines for `ranked`, drawn for a user column of `userLength`. */
  lemma DrawnTable(ranked: Members, userLength: int)
    ensures var drawn := DrawLines(TableLines(ranked), userLength);
            && |drawn| == 5 + 2 * |ranked|
            && drawn[0] == TitleBorder(TableWidth(userLength))
            && drawn[1] == TitleText(TableWidth(userLength))
            && drawn[2] == HeaderBorder(userLength)
            && drawn[3] == HeaderText(userLength)
            && drawn[4] == HeaderBorder(userLength)
            && forall i :: 0 <= i < |ranked| ==>
                 drawn[5 + 2 * i] == Row(i + 1, ranked[i].1, userLength)
                 && drawn[6 + 2 * i] == HeaderBorder(userLength)
  {
    var lines := TableLines(ranked);
    DrawnHeader(lines, userLength);
    DrawnRows(lines, userLength);
  }

  lemma DrawnHeader(lines: seq<TableLine>, userLength: int)
    requires |lines| >= 5 && lines[..5] == HeaderLines
    ensures var drawn := DrawLines(lines, userLength);
            && drawn[0] == TitleBorder(TableWidth(userLength))
            && drawn[1] == TitleText(TableWidth(userLength))
            && drawn[2] == HeaderBorder(userLength)
            && drawn[3] == HeaderText(userLength)
            && drawn[4] == HeaderBorder(userLength)
  {
    var drawn := DrawLines(lines, userLength);
    var head := lines[..5];
    assert head[0] == lines[0] && head[1] == lines[1] && head[2] == lines[2] && head[3] == lines[3] && head[4] == lines[4];
    RenderHeaders(userLength);
    assert drawn[0] == Render(TitleBorderLine, userLength);
    assert drawn[1] == Render(TitleLine, userLength);
    assert drawn[2] == Render(BorderLine, userLength);
    assert drawn[3] == Render(ColumnHeaderLine, userLength);
    assert drawn[4] == Render(BorderLine, userLength);
  }

  /** Wherever a member line or a border sits, its drawing sits. */
  lemma DrawnRows(lines: seq<TableLine>, userLength: int)
    ensures forall k :: 0 <= k < |lines| && lines[k].MemberLine? ==>
              DrawLines(lines, userLength)[k] == Row(lines[k].place, lines[k].member, userLength)
    ensures forall k :: 0 <= k < |lines| && lines[k] == BorderLine ==>
              DrawLines(lines, userLength)[k] == HeaderBorder(userLength)
  {
  }

  /** The drawing of each header line. */
  lemma RenderHeaders(userLength: int)
    ensures Render(TitleBorderLine, userLength) == TitleBorder(TableWidth(userLength))
    ensures Render(TitleLine, userLength) == TitleText(TableWidth(userLength))
    ensures Render(BorderLine, userLength) == HeaderBorder(userLength)
    ensures Render(ColumnHeaderLine, userLength) == HeaderText(userLength)
  {
  }

  /** After the header, every other line is a border, following each row. */
  lemma BordersBetweenRows(ranked: Members)
    ensures var lines := TableLines(ranked);
            forall i :: 5 <= i < |lines| && i % 2 == 0 ==> lines[i] == BorderLine
  {
    var lines := TableLines(ranked);
    forall i | 5 <= i < |lines| && i % 2 == 0 ensures lines[i] == BorderLine {
      var k, isRow := DataIndex(i);
      assert !isRow && i == 6 + 2 * k && k < |ranked|;
      assert lines[5 + 2 * k] == MemberLine(k + 1, ranked[k].1) && lines[6 + 2 * k] == BorderLine;
    }
  }

  /** The member a line past the header belongs to: its row is line 5 + 2k, its border 6 + 2k. */
  lemma DataIndex(i: int) returns (k: nat, isRow: bool)
    requires i >= 5
    ensures isRow <==> i % 2 == 1
    ensures isRow ==> i == 5 + 2 * k
    ensures !isRow ==> i == 6 + 2 * k
  {
    k := (i - 5) / 2;
    isRow := i % 2 == 1;
  }

  lemma CellLength(word: string, width: int)
    ensures |Cell(word, width)| == if |word| < width then width else |word| + 1
  {
  }

  /** Numbers below ten million print in at most seven digits. */
  lemma ShortNumber(n: nat)
    requires n < 10000000
    ensures |NatToString(n)| < 8
  {
    assert Pow10(7) == 10000000;
    NatToStringLength(n, 7);
  }

  /**
   * A member row whose numbers have at most seven digits holds place,
   * stars, score and name, each centred between two borders.
   */
  lemma RowLayout(place: nat, m: Member, userLength: nat)
    requires place < 10000000 && m.stars < 10000000 && m.localScore < 10000000
    requires |m.name| <= userLength
    ensures Row(place, m, userLength)
         == "|"
            + (Centred(NatToString(place), PlaceLength + 2) + "|")
            + (Centred(NatToString(m.stars), StarsLength + 2) + "|")
            + (Centred(NatToString(m.localScore), ScoreLength + 2) + "|")
            + (Centred(m.name, userLength + 2) + "|")
  {
    ShortNumber(place);
    ShortNumber(m.stars);
    ShortNumber(m.localScore);
    CentredCells(NatToString(place), NatToString(m.stars), NatToString(m.localScore), m.name, userLength);
  }

  /** Four words that fit their columns, each centred between two borders. */
  lemma CentredCells(place: string, stars: string, score: string, name: string, userLength: nat)
    requires |place| <= PlaceLength + 2 && |stars| <= StarsLength + 2 && |score| <= ScoreLength + 2
    requires |name| <= userLength
    ensures "|"
            + Cell(place, ColumnWidth(PlaceLength))
            + Cell(stars, ColumnWidth(StarsLength))
            + Cell(score, ColumnWidth(ScoreLength))
            + Cell(name, ColumnWidth(userLength))
         == "|"
            + (Centred(place, PlaceLength + 2) + "|")
            + (Centred(stars, StarsLength + 2) + "|")
            + (Centred(score, ScoreLength + 2) + "|")
            + (Centred(name, userLength + 2) + "|")
  {
    CellLayout(place, ColumnWidth(PlaceLength));
    CellLayout(stars, ColumnWidth(StarsLength));
    CellLayout(score, ColumnWidth(ScoreLength));
    CellLayout(name, ColumnWidth(userLength));
  }

  lemma RowWidth(place: nat, m: Member, userLength: nat)
    requires place < 10000000 && m.stars < 10000000 && m.localScore < 10000000
    requires |m.name| <= userLength
    ensures |Row(place, m, userLength)| == TableWidth(userLength)
  {
    ShortNumber(place);
    ShortNumber(m.stars);
    ShortNumber(m.localScore);
    CellLength(NatToString(place), ColumnWidth(PlaceLength));
    CellLength(NatToString(m.stars), ColumnWidth(StarsLength));
    CellLength(NatToString(m.localScore), ColumnWidth(ScoreLength));
    CellLength(m.name, ColumnWidth(userLength));
  }

  lemma TitleBorderWidth(userLength: nat)
    ensures |TitleBorder(TableWidth(userLength))| == TableWidth(userLength)
  {
  }

  lemma TitleTextWidth(userLength: nat)
    ensures |TitleText(TableWidth(userLength))| == TableWidth(userLength)
  {
    CellLength(Title, TableWidth(userLength) - 1);
  }

  lemma HeaderBorderWidth(userLength: nat)
    ensures |HeaderBorder(userLength)| == TableWidth(userLength)
  {
  }

  /** "User" fits its column exactly when the longest name has two characters or more. */
  lemma HeaderTextWidth(userLength: nat)
    ensures |HeaderText(userLength)| == TableWidth(userLength) <==> userLength >= 2
  {
    CellLength("Place", ColumnWidth(PlaceLength));
    CellLength("Stars", ColumnWidth(StarsLength));
    CellLength("Score", ColumnWidth(ScoreLength));
    CellLength("User", ColumnWidth(userLength));
  }

  /** A line other than the column headers whose numbers have at most seven digits. */
  ghost predicate ShortLine(line: TableLine, userLength: nat) {
    && !line.ColumnHeaderLine?
    && (line.MemberLine? ==>
          && line.place < 10000000
          && line.member.stars < 10000000
          && line.member.localScore < 10000000
          && |line.member.name| <= userLength)
  }

  lemma RenderWidth(line: TableLine, userLength: nat)
    requires ShortLine(line, userLength)
    ensures |Render(line, userLength)| == TableWidth(userLength)
  {
    match line
    case TitleBorderLine => TitleBorderWidth(userLength);
    case TitleLine => TitleTextWidth(userLength);
    case BorderLine => HeaderBorderWidth(userLength);
    case MemberLine(place, m) => RowWidth(place, m, userLength);
  }

  /**
   * All lines of the table are `TableWidth` characters wide, as long as
   * places, stars and scores have at most seven digits, except the column
   * header line, which is that wide only when the longest name has at
   * least two characters.
   */
  lemma LeaderboardWidths(members: Members)
    requires 0 < |members| < 10000000
    requires forall i :: 0 <= i < |members| ==>
               members[i].1.stars < 10000000 && members[i].1.localScore < 10000000
    ensures var ranked := RankMembers(members);
            var userLength := MaxNameLength(ranked);
            var lines := TableLines(ranked);
            && (forall i :: 0 <= i < |lines| && i != 3 ==> |Render(lines[i], userLength)| == TableWidth(userLength))
            && (|Render(lines[3], userLength)| == TableWidth(userLength) <==> userLength >= 2)
  {
    var ranked := RankMembers(members);
    var userLength := MaxNameLength(ranked);
    var lines := TableLines(ranked);
    ShortLines(members);
    assert lines[3] == ColumnHeaderLine by { assert lines[..5][3] == lines[3]; }
    TableLineWidths(lines, userLength);
  }

  /**
   * The same widths for the lines `getLeaderboard` joins into its reply:
   * every drawn line but the column headers is as wide as the table.
   */
  lemma LeaderboardDrawnWidths(members: Members)
    requires 0 < |members| < 10000000
    requires forall i :: 0 <= i < |members| ==>
               members[i].1.stars < 10000000 && members[i].1.localScore < 10000000
    ensures var ranked := RankMembers(members);
            var userLength := UserLength(ranked);
            var drawn := DrawLines(TableLines(ranked), userLength);
            && (forall i :: 0 <= i < |drawn| && i != 3 ==> |drawn[i]| == TableWidth(userLength))
            && (|drawn[3]| == TableWidth(userLength) <==> userLength >= 2)
  {
    var ranked := RankMembers(members);
    LeaderboardWidths(members);
    UserLengthIsMax(ranked);
    DrawnWidths(TableLines(ranked), UserLength(ranked));
  }

  /** With members, the user column is the longest name's length. */
  lemma UserLengthIsMax(ranked: Members)
    requires |ranked| > 0
    ensures UserLength(ranked) == MaxNameLength(ranked)
  {
    var a :| 0 <= a < |ranked| && |ranked[a].1.name| == UserLength(ranked);
    var b :| 0 <= b < |ranked| && |ranked[b].1.name| == MaxNameLength(ranked);
  }

  /** Width facts about rendered lines carry over to the drawn lines. */
  lemma DrawnWidths(lines: seq<TableLine>, userLength: int)
    requires |lines| > 3
    requires forall i :: 0 <= i < |lines| && i != 3 ==> |Render(lines[i], userLength)| == TableWidth(userLength)
    requires |Render(lines[3], userLength)| == TableWidth(userLength) <==> userLength >= 2
    ensures var drawn := DrawLines(lines, userLength);
            && (forall i :: 0 <= i < |drawn| && i != 3 ==> |drawn[i]| == TableWidth(userLength))
            && (|drawn[3]| == TableWidth(userLength) <==> userLength >= 2)
  {
  }

  /** Lines other than the column headers are table-wide when short. */
  lemma TableLineWidths(lines: seq<TableLine>, userLength: nat)
    requires |lines| > 3 && lines[3] == ColumnHeaderLine
    requires forall i :: 0 <= i < |lines| && i != 3 ==> ShortLine(lines[i], userLength)
    ensures forall i :: 0 <= i < |lines| && i != 3 ==> |Render(lines[i], userLength)| == TableWidth(userLength)
    ensures |Render(lines[3], userLength)| == TableWidth(userLength) <==> userLength >= 2
  {
    HeaderTextWidth(userLength);
    forall i | 0 <= i < |lines| && i != 3
      ensures |Render(lines[i], userLength)| == TableWidth(userLength)
    {
      RenderWidth(lines[i], userLength);
    }
  }

  lemma ShortLines(members: Members)
    requires 0 < |members| < 10000000
    requires forall i :: 0 <= i < |members| ==>
               members[i].1.stars < 10000000 && members[i].1.localScore < 10000000
    ensures var ranked := RankMembers(members);
            var lines := TableLines(ranked);
            forall i :: 0 <= i < |lines| && i != 3 ==> ShortLine(lines[i], MaxNameLength(ranked))
  {
    var ranked := RankMembers(members);
    var userLength := MaxNameLength(ranked);
    var lines := TableLines(ranked);
    forall i | 0 <= i < |lines| && i != 3
      ensures ShortLine(lines[i], userLength)
    {
      if i < 5 {
        assert lines[..5][i] == lines[i];
      } else {
        var k, isRow := DataIndex(i);
        var m := ranked[k].1;
        if isRow {
          assert lines[i] == MemberLine(k + 1, m);
          assert |m.name| <= userLength;
          assert ranked[k] in multiset(members);
          var j :| 0 <= j < |members| && members[j] == ranked[k];
          assert m.stars < 10000000 && m.localScore < 10000000;
        } else {
          assert lines[i] == BorderLine;
        }
      }
    }
  }
}
