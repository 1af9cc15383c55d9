/** The player table and its two lookups (utils/data_loader.py): by name
    (`get_player_info`) and by mention inside free text
    (`find_player_in_text`), with the record both of them return
    (`_format_player_info`). */
module DataLoader {
  import opened Seqs
  import opened Text

  /** One cell of the CSV table as pandas hands it over: a value, whose
      `text` is Python's `str()` of it; a missing value (NaN); or a column
      the file does not have at all. */
  datatype Cell = Value(text: string) | NaN | NoColumn

  /** One row of the table. `name` and `full_name` are always present
      strings: loading fills them with "" and converts them with `str`. */
  datatype Row = Row(
    name: string, fullName: string, age: Cell, position: Cell,
    club: Cell, league: Cell, nationality: Cell, price: Cell)

  /** The eight-field dictionary built from a row. */
  datatype PlayerInfo = PlayerInfo(
    name: string, fullName: string, age: string, position: Cell,
    club: Cell, league: Cell, nationality: Cell, price: string)

  /** `row.get(column, 'N/A')`. */
  function GetOr(c: Cell): (r: Cell)
    ensures r != NoColumn
    ensures c != NoColumn ==> r == c
  {
    if c == NoColumn then Value("N/A") else c
  }

  /** `str(cell)`: a value's text, "nan" for a missing value. */
  function Str(c: Cell): string
    requires c != NoColumn
  {
    if c.Value? then c.text else "nan"
  }

  const PriceUnit: string := " M€"
  const NotAvailable: string := "N/A"

  /** `_format_player_info`: the six text fields are copied (through
      `row.get`), the age is stringified, and the price gets its unit when
      it is present and is "N/A" otherwise. */
  function FormatPlayerInfo(row: Row): (r: PlayerInfo)
    ensures r.name == row.name && r.fullName == row.fullName
    ensures r.position == GetOr(row.position) && r.club == GetOr(row.club)
    ensures r.league == GetOr(row.league) && r.nationality == GetOr(row.nationality)
    ensures row.age.Value? ==> r.age == row.age.text
    ensures row.age == NaN ==> r.age == "nan"
    ensures row.age == NoColumn ==> r.age == NotAvailable
    ensures row.price.Value? ==> r.price == row.price.text + PriceUnit
    ensures r.price == NotAvailable <==> !row.price.Value?
  {
    PlayerInfo(
      row.name, row.fullName, Str(GetOr(row.age)), GetOr(row.position),
      GetOr(row.club), GetOr(row.league), GetOr(row.nationality),
      if row.price.Value? then PriceText(row.price.text) else NotAvailable)
  }

  /** `str(price) + " M€"`; it ends in the euro sign, so it is never "N/A". */
  function PriceText(text: string): (r: string)
    ensures r == text + PriceUnit && r != NotAvailable
  {
    var r := text + PriceUnit;
    assert r[|r| - 1] == '€';
    r
  }

  // ---------------------------------------------------------------------
  // get_player_info
  // ---------------------------------------------------------------------

  /** The mask of `get_player_info`: the row's lower-cased `name` or
      `full_name` contains the (already normalised) query. */
  predicate NameMatches(row: Row, query: string) {
    Contains(Lower(row.name), query) || Contains(Lower(row.fullName), query)
  }

  /** The mask as a test on rows. */
  function MatchesQuery(query: string): Row -> bool {
    row => NameMatches(row, query)
  }

  /** `get_player_info(player_name)`: `None` when the table did not load or
      the stripped query is empty; otherwise the first row selected by the
      mask, formatted, or `None` when the mask selects nothing. */
  function GetPlayerInfo(df: Option<seq<Row>>, playerName: string): Option<PlayerInfo> {
    match df
    case None => None
    case Some(rows) =>
      var query := Lower(Strip(playerName));
      if query == [] then None
      else
        var results := Filter(rows, MatchesQuery(query));
        if results == [] then None else Some(FormatPlayerInfo(results[0]))
  }

  /** The promises of `get_player_info`: no answer without a table or with a
      blank query; otherwise the answer is the record of the first row whose
      name or full name contains the lower-cased, stripped query, and there
      is no answer exactly when no row does. */
  lemma {:induction false} GetPlayerInfoFirstMatch(df: Option<seq<Row>>, playerName: string)
    ensures df.None? ==> GetPlayerInfo(df, playerName).None?
    ensures (forall k :: 0 <= k < |playerName| ==> IsSpace(playerName[k]))
              ==> GetPlayerInfo(df, playerName).None?
    ensures df.Some? && Lower(Strip(playerName)) != [] ==>
      var rows, query := df.value, Lower(Strip(playerName));
      && (GetPlayerInfo(df, playerName).None? <==> forall i :: 0 <= i < |rows| ==> !NameMatches(rows[i], query))
      && (GetPlayerInfo(df, playerName).Some? ==>
            exists i :: 0 <= i < |rows| && NameMatches(rows[i], query)
                        && (forall j :: 0 <= j < i ==> !NameMatches(rows[j], query))
                        && GetPlayerInfo(df, playerName).value == FormatPlayerInfo(rows[i]))
  {
    StripEmptyIffBlank(playerName);
    if df.Some? && Lower(Strip(playerName)) != [] {
      var rows, query := df.value, Lower(Strip(playerName));
      var p := MatchesQuery(query);
      FilterHeadIsFirst(rows, p);
      var k := FirstIndex(rows, p);
      if k < |rows| {
        assert NameMatches(rows[k], query);
      }
    }
  }

  /** Any non-blank query is looked up: there is no minimum length, so even
      a one-letter query finds a row whose name contains that letter. */
  lemma {:induction false} GetPlayerInfoNoMinimumLength(rows: seq<Row>, c: char)
    requires 'a' <= c <= 'z'
    requires |rows| > 0 && Contains(Lower(rows[0].name), [c])
    ensures GetPlayerInfo(Some(rows), [c]) == Some(FormatPlayerInfo(rows[0]))
  {
    StripUntrimmed([c]);
    assert Lower([c]) == LowerChar(c) + Lower([]);
    assert Lower(Strip([c])) == [c];
    FilterHeadIsFirst(rows, MatchesQuery([c]));
    assert FirstIndex(rows, MatchesQuery([c])) == 0;
  }

  /** The lookup is case-insensitive: a query that differs from a row's
      name only in letter case (say "messi" for "Messi") finds that row when
      it comes first, whatever follows it. */
  lemma {:induction false} GetPlayerInfoIgnoresCase(rest: seq<Row>, row: Row, playerName: string)
    requires playerName != [] && !IsSpace(playerName[0]) && !IsSpace(playerName[|playerName| - 1])
    requires Lower(row.name) == Lower(playerName)
    ensures GetPlayerInfo(Some([row] + rest), playerName) == Some(FormatPlayerInfo(row))
  {
    StripUntrimmed(playerName);
    var query := Lower(playerName);
    assert NameMatches(row, query);
    FilterHeadIsFirst([row] + rest, MatchesQuery(query));
    assert FirstIndex([row] + rest, MatchesQuery(query)) == 0;
  }

  // ---------------------------------------------------------------------
  // find_player_in_text
  // ---------------------------------------------------------------------

  /** The test applied to each row by `find_player_in_text`: a lower-cased
      name or full name of more than three characters occurs in the
      (lower-cased) text. */
  predicate Mentions(row: Row, text: string) {
    var name, fullName := Lower(row.name), Lower(row.fullName);
    (|name| > 3 && Contains(text, name)) || (|fullName| > 3 && Contains(text, fullName))
  }

  /** The per-row test as a test on rows. */
  function MentionedIn(text: string): Row -> bool {
    row => Mentions(row, text)
  }

  /** The specification of `find_player_in_text`: `None` without a table or
      with an empty text, otherwise the record of the first row, in table
      order, that `Mentions` the lower-cased text. */
  function MentionedPlayer(df: Option<seq<Row>>, text: string): Option<PlayerInfo> {
    if df.None? || text == [] then None
    else
      var rows := df.value;
      var k := FirstIndex(rows, MentionedIn(Lower(text)));
      if k < |rows| then Some(FormatPlayerInfo(rows[k])) else None
  }

  /** `find_player_in_text`: a scan of the rows in order with an early
      return on the first row that mentions the text. */
  method FindPlayerInText(df: Option<seq<Row>>, text: string) returns (info: Option<PlayerInfo>)
    ensures info == MentionedPlayer(df, text)
  {
    if df.None? || text == [] {
      return None;
    }
    var rows := df.value;
    var lowered := Lower(text);
    ghost var p := MentionedIn(lowered);
    var index := 0;
    while index < |rows|
      invariant 0 <= index <= |rows|
      invariant forall j :: 0 <= j < index ==> !Mentions(rows[j], lowered)
    {
      var row := rows[index];
      var name := Lower(row.name);
      var fullName := Lower(row.fullName);
      if (|name| > 3 && Contains(lowered, name)) || (|fullName| > 3 && Contains(lowered, fullName)) {
        FirstIndexIs(rows, p, index);
        return Some(FormatPlayerInfo(row));
      }
      index := index + 1;
    }
    FirstIndexIs(rows, p, |rows|);
    return None;
  }

  /** The promises of `find_player_in_text`: no answer without a table or
      with an empty text; an answer is the record of a row that mentions the
      lower-cased text with a name longer than three characters, and no
      earlier row does; there is no answer exactly when no row does. */
  lemma {:induction false} MentionedPlayerFirstMatch(df: Option<seq<Row>>, text: string)
    ensures df.None? || text == [] ==> MentionedPlayer(df, text).None?
    ensures df.Some? && text != [] ==>
      var rows, t := df.value, Lower(text);
      && (MentionedPlayer(df, text).None? <==> forall i :: 0 <= i < |rows| ==> !Mentions(rows[i], t))
      && (MentionedPlayer(df, text).Some? ==>
            exists i :: 0 <= i < |rows| && Mentions(rows[i], t)
                        && (forall j :: 0 <= j < i ==> !Mentions(rows[j], t))
                        && MentionedPlayer(df, text).value == FormatPlayerInfo(rows[i]))
  {
    if df.Some? && text != [] {
      var rows, t := df.value, Lower(text);
      var p := MentionedIn(t);
      var k := FirstIndex(rows, p);
      assert forall j :: 0 <= j < k ==> !Mentions(rows[j], t) by {
        forall j | 0 <= j < k ensures !Mentions(rows[j], t) {
          assert !p(rows[j]);
        }
      }
      if k < |rows| {
        assert p(rows[k]);
        assert Mentions(rows[k], t);
      }
    }
  }

  /** A row whose name and full name both have at most three characters
      (after lower-casing) never makes `find_player_in_text` answer with it:
      a table of such rows yields no answer for any text. */
  lemma {:induction false} ShortNamesNeverMentioned(rows: seq<Row>, text: string)
    requires forall i :: 0 <= i < |rows| ==> |Lower(rows[i].name)| <= 3 && |Lower(rows[i].fullName)| <= 3
    ensures MentionedPlayer(Some(rows), text) == None
  {
  }

  /** The scan takes the first mentioning row in table order, not the
      longest name: with a row "kevin" ahead of a row "kevin de bruyne", a
      text mentioning both resolves to the "kevin" row. */
  lemma {:induction false} FirstRowWinsOverLongerName(first: Row, second: Row, text: string)
    requires |Lower(first.name)| > 3 && Contains(Lower(text), Lower(first.name))
    requires Mentions(second, Lower(text)) && |Lower(second.fullName)| > |Lower(first.name)|
    ensures MentionedPlayer(Some([first, second]), text) == Some(FormatPlayerInfo(first))
  {
    assert text != [] by {
      if text == [] {
        LongerNotContained(Lower(text), Lower(first.name));
      }
    }
    assert Mentions(first, Lower(text));
  }
}
