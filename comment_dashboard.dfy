/**
 * The popup's comment dashboard (entrypoints/popup/CommentDashboard.tsx):
 * server rows projected to comments, the collapsed/expanded comment list and
 * the CSV export text.
 */
module CommentDashboard {
  import opened Wrappers
  import Text

  /** One row of `GET /comment/get/<sessionId>`. */
  datatype ServerRow = ServerRow(ID: int, Name: string, Comment: string, SessionId: string)

  datatype Comment = Comment(id: int, name: string, text: string)

  /** `data.map(item => ({id: item.ID, name: item.Name, text: item.Comment}))`. */
  function ToComments(rows: seq<ServerRow>): (cs: seq<Comment>)
    ensures |cs| == |rows|
    ensures forall i :: 0 <= i < |rows| ==>
      cs[i].id == rows[i].ID && cs[i].name == rows[i].Name && cs[i].text == rows[i].Comment
  {
    seq(|rows|, i requires 0 <= i < |rows| => Comment(rows[i].ID, rows[i].Name, rows[i].Comment))
  }

  /** The session id does not reach the comments: rows differing only in it project alike. */
  lemma ToCommentsDropsSessionId(a: seq<ServerRow>, b: seq<ServerRow>)
    requires |a| == |b|
    requires forall i :: 0 <= i < |a| ==> a[i].ID == b[i].ID && a[i].Name == b[i].Name && a[i].Comment == b[i].Comment
    ensures ToComments(a) == ToComments(b)
  {
  }

  // ---------------------------------------------------------------------------
  // Collapsed view

  /** The toggle button is rendered only for more than three comments. */
  predicate ShowMoreButton(comments: seq<Comment>) {
    |comments| > 3
  }

  /** `showAll ? comments : comments.slice(0, 2)`, as the code has it. */
  function VisibleAsWritten(comments: seq<Comment>, showAll: bool): (r: seq<Comment>)
    ensures showAll ==> r == comments
    ensures !showAll ==> |r| == (if |comments| < 2 then |comments| else 2) && r == comments[..|r|]
  {
    if showAll then comments else comments[..if |comments| < 2 then |comments| else 2]
  }

  /**
   * As written, of exactly three comments the collapsed list shows two, and
   * the button that would expand it is not rendered: the third stays hidden.
   */
  lemma ThirdOfThreeUnreachable(comments: seq<Comment>)
    requires |comments| == 3
    ensures !ShowMoreButton(comments)
    ensures VisibleAsWritten(comments, false) == comments[..2] && |VisibleAsWritten(comments, false)| < |comments|
  {
  }

  /** The collapsed view the code's own comment describes: the first three comments. */
  function Visible(comments: seq<Comment>, showAll: bool): (r: seq<Comment>)
    ensures showAll ==> r == comments
    ensures !showAll ==> |r| == (if |comments| < 3 then |comments| else 3) && r == comments[..|r|]
  {
    if showAll then comments else comments[..if |comments| < 3 then |comments| else 3]
  }

  /** With the corrected view, every comment is shown collapsed or once the button is clicked. */
  lemma EveryCommentReachable(comments: seq<Comment>, i: nat)
    requires i < |comments|
    ensures (i < |Visible(comments, false)| && Visible(comments, false)[i] == comments[i])
         || (ShowMoreButton(comments) && Visible(comments, true)[i] == comments[i])
  {
  }

  // ---------------------------------------------------------------------------
  // CSV export

  /** `header.join(",")`. */
  const HEADER := "名前,コメント"

  /** `String(cell).replace(/"/g, '""')`. */
  function DoubleQuotes(s: string): (r: string)
    ensures |r| == |s| + Text.Count(s, '"')
    ensures forall c :: c in r ==> c == '"' || c in s
  {
    if s == [] then []
    else if s[0] == '"' then "\"\"" + DoubleQuotes(s[1..])
    else [s[0]] + DoubleQuotes(s[1..])
  }

  /** One cell: wrapped in quotes, inner quotes doubled. */
  function QuoteCell(cell: string): (r: string)
    ensures |r| == |cell| + Text.Count(cell, '"') + 2
    ensures r[0] == '"' && r[|r| - 1] == '"'
    ensures forall c :: c in r ==> c == '"' || c in cell
  {
    "\"" + DoubleQuotes(cell) + "\""
  }

  /** `[comment.name, comment.text].map(quote).join(",")`: exactly two quoted cells, name first. */
  function CsvRow(c: Comment): (row: string)
    ensures row == QuoteCell(c.name) + "," + QuoteCell(c.text)
  {
    var cells := [QuoteCell(c.name), QuoteCell(c.text)];
    assert cells[1..] == [QuoteCell(c.text)];
    assert Text.Join(cells[1..], ",") == QuoteCell(c.text);
    Text.Join(cells, ",")
  }

  /** `csvData.map(row => ...)`: one CSV row per comment. */
  function RowLines(comments: seq<Comment>): (rows: seq<string>)
    ensures |rows| == |comments|
    ensures forall i :: 0 <= i < |comments| ==> rows[i] == CsvRow(comments[i])
  {
    seq(|comments|, i requires 0 <= i < |comments| => CsvRow(comments[i]))
  }

  /** The lines of the export: the header, then one row per comment. */
  function CsvLines(comments: seq<Comment>): seq<string> {
    [HEADER] + RowLines(comments)
  }

  /** `downloadCSV`'s text: the lines joined by LF. */
  function CsvContent(comments: seq<Comment>): string {
    Text.Join(CsvLines(comments), "\n")
  }

  // Reading the export back: a parser for exactly the shape `CsvContent` writes.

  /** Undoes `DoubleQuotes`; a lone quote is malformed. */
  function HalveQuotes(s: string): Option<string> {
    if s == [] then Some([])
    else if s[0] == '"' then
      if |s| >= 2 && s[1] == '"' then
        match HalveQuotes(s[2..])
        case None => None
        case Some(t) => Some("\"" + t)
      else None
    else
      match HalveQuotes(s[1..])
      case None => None
      case Some(t) => Some([s[0]] + t)
  }

  /** Strips the outer quotes of a cell and halves the inner ones. */
  function UnquoteCell(q: string): Option<string> {
    if |q| >= 2 && q[0] == '"' && q[|q| - 1] == '"' then HalveQuotes(q[1..|q| - 1]) else None
  }

  lemma {:induction false} HalveDoubled(s: string)
    ensures HalveQuotes(DoubleQuotes(s)) == Some(s)
  {
    if s != [] {
      HalveDoubled(s[1..]);
      if s[0] == '"' {
        assert ("\"\"" + DoubleQuotes(s[1..]))[2..] == DoubleQuotes(s[1..]);
        assert "\"" + s[1..] == s;
      } else {
        assert ([s[0]] + DoubleQuotes(s[1..]))[1..] == DoubleQuotes(s[1..]);
        assert [s[0]] + s[1..] == s;
      }
    }
  }

  /** The escaping is reversible: unquoting a quoted cell gives the cell back. */
  lemma UnquoteQuoted(cell: string)
    ensures UnquoteCell(QuoteCell(cell)) == Some(cell)
  {
    var q := QuoteCell(cell);
    assert q[1..|q| - 1] == DoubleQuotes(cell);
    HalveDoubled(cell);
  }

  /** Reads a quoted field's body up to its closing quote; returns the cell and what follows. */
  function ReadQuoted(s: string): (r: Option<(string, string)>)
    ensures r.Some? ==> |r.value.1| < |s|
  {
    if s == [] then None
    else if s[0] == '"' then
      if |s| >= 2 && s[1] == '"' then
        match ReadQuoted(s[2..])
        case None => None
        case Some(p) => Some(("\"" + p.0, p.1))
      else Some(([], s[1..]))
    else
      match ReadQuoted(s[1..])
      case None => None
      case Some(p) => Some(([s[0]] + p.0, p.1))
  }

  /** Reads `"name","text"` and returns the pair and what follows. */
  function ReadRow(s: string): (r: Option<((string, string), string)>)
    ensures r.Some? ==> |r.value.1| < |s|
  {
    if s == [] || s[0] != '"' then None
    else match ReadQuoted(s[1..])
      case None => None
      case Some(p) =>
        var rest := p.1;
        if |rest| < 2 || rest[0] != ',' || rest[1] != '"' then None
        else match ReadQuoted(rest[2..])
          case None => None
          case Some(p2) => Some(((p.0, p2.0), p2.1))
  }

  /** Reads any number of `\n`-prefixed rows up to the end of the text. */
  function ReadRows(s: string): Option<seq<(string, string)>>
    decreases |s|
  {
    if s == [] then Some([])
    else if s[0] != '\n' then None
    else match ReadRow(s[1..])
      case None => None
      case Some(p) =>
        match ReadRows(p.1)
        case None => None
        case Some(rows) => Some([p.0] + rows)
  }

  /** Parses an export back into its (name, text) pairs. */
  function ParseCsv(s: string): Option<seq<(string, string)>> {
    if |s| >= |HEADER| && s[..|HEADER|] == HEADER then ReadRows(s[|HEADER|..]) else None
  }

  /** The (name, text) pairs of the comments, in comment order. */
  function Pairs(comments: seq<Comment>): (ps: seq<(string, string)>)
    ensures |ps| == |comments|
  {
    seq(|comments|, i requires 0 <= i < |comments| => (comments[i].name, comments[i].text))
  }

  lemma {:induction false} ReadQuotedEscaped(cell: string, rest: string)
    requires rest == [] || rest[0] != '"'
    ensures ReadQuoted(DoubleQuotes(cell) + "\"" + rest) == Some((cell, rest))
  {
    var s := DoubleQuotes(cell) + "\"" + rest;
    if cell == [] {
      assert s == "\"" + rest;
      assert s[1..] == rest;
    } else {
      ReadQuotedEscaped(cell[1..], rest);
      if cell[0] == '"' {
        assert s[2..] == DoubleQuotes(cell[1..]) + "\"" + rest;
        assert "\"" + cell[1..] == cell;
      } else {
        assert s[1..] == DoubleQuotes(cell[1..]) + "\"" + rest;
        assert [cell[0]] + cell[1..] == cell;
      }
    }
  }

  lemma ReadRowWritten(c: Comment, rest: string)
    requires rest == [] || rest[0] == '\n'
    ensures ReadRow(CsvRow(c) + rest) == Some(((c.name, c.text), rest))
  {
    var dn, dt := DoubleQuotes(c.name), DoubleQuotes(c.text);
    var tail := "\"" + dt + "\"" + rest;
    var s := CsvRow(c) + rest;
    RowRegroup(dn, dt, rest);
    assert s == "\"" + (dn + "\"" + ("," + tail));
    assert s[1..] == dn + "\"" + ("," + tail);
    ReadQuotedEscaped(c.name, "," + tail);
    var after := "," + tail;
    assert after[0] == ',' && after[1] == '"';
    assert after[2..] == dt + "\"" + rest;
    ReadQuotedEscaped(c.text, rest);
  }

  /** Regroups a written row so that the first cell's body comes first. */
  lemma RowRegroup(dn: string, dt: string, rest: string)
    ensures ("\"" + dn + "\"") + "," + ("\"" + dt + "\"") + rest
         == "\"" + (dn + "\"" + ("," + ("\"" + dt + "\"" + rest)))
  {
  }

  /** The rows after the header: each comment's row preceded by LF. */
  function RowsText(comments: seq<Comment>): string {
    if comments == [] then [] else "\n" + CsvRow(comments[0]) + RowsText(comments[1..])
  }

  lemma {:induction false} ReadRowsWritten(comments: seq<Comment>)
    ensures ReadRows(RowsText(comments)) == Some(Pairs(comments))
  {
    if comments != [] {
      var c := comments[0];
      var tail := RowsText(comments[1..]);
      ReadRowsWritten(comments[1..]);
      assert tail == [] || tail[0] == '\n';
      var s := RowsText(comments);
      assert s == "\n" + (CsvRow(c) + tail);
      assert s[0] == '\n' && s[1..] == CsvRow(c) + tail;
      ReadRowWritten(c, tail);
      assert ReadRow(s[1..]) == Some(((c.name, c.text), tail));
      PairsCons(comments);
    }
  }

  lemma PairsCons(comments: seq<Comment>)
    requires comments != []
    ensures Pairs(comments) == [(comments[0].name, comments[0].text)] + Pairs(comments[1..])
  {
  }

  lemma {:induction false} JoinRows(first: string, comments: seq<Comment>)
    ensures Text.Join([first] + RowLines(comments), "\n") == first + RowsText(comments)
    decreases comments
  {
    if comments == [] {
      assert [first] + RowLines(comments) == [first];
    } else {
      var row, rest := CsvRow(comments[0]), comments[1..];
      assert RowLines(comments) == [row] + RowLines(rest);
      Text.JoinCons(first, RowLines(comments), "\n");
      JoinRows(row, rest);
      Text.ConcatAssoc(first, "\n" + row, RowsText(rest));
      Text.ConcatAssoc(first + "\n", row, RowsText(rest));
    }
  }

  /** The export parses back into exactly the comments' names and texts, in order. */
  lemma CsvRoundTrip(comments: seq<Comment>)
    ensures ParseCsv(CsvContent(comments)) == Some(Pairs(comments))
  {
    JoinRows(HEADER, comments);
    var s := CsvContent(comments);
    assert s[|HEADER|..] == RowsText(comments);
    ReadRowsWritten(comments);
  }

  /** With no LF inside any cell, the export has one line per comment plus the header. */
  lemma CsvLineCount(comments: seq<Comment>)
    requires forall i :: 0 <= i < |comments| ==> '\n' !in comments[i].name && '\n' !in comments[i].text
    ensures Text.Split(CsvContent(comments), '\n') == CsvLines(comments)
    ensures |Text.Split(CsvContent(comments), '\n')| == |comments| + 1
  {
    var lines := CsvLines(comments);
    forall i | 0 <= i < |lines| ensures '\n' !in lines[i] {
      if i > 0 {
        var c := comments[i - 1];
        assert lines[i] == QuoteCell(c.name) + "," + QuoteCell(c.text);
      }
    }
    Text.SplitJoin(lines, '\n');
  }

  // ---------------------------------------------------------------------------
  // Component state

  class Dashboard {
    var comments: seq<Comment>
    var sessionId: Option<string>
    /** Whether the accordion is open. */
    var showAll: bool

    constructor ()
      ensures comments == [] && sessionId == None && !showAll
    {
      comments := [];
      sessionId := None;
      showAll := false;
    }

    /** The reply to the mount-time `getData` request: only a non-empty `data` is taken. */
    method OnSessionReply(response: Option<string>)
      modifies this
      ensures sessionId == (if response.Some? && response.value != "" then Some(response.value) else old(sessionId))
      ensures comments == old(comments) && showAll == old(showAll)
    {
      if response.Some? && response.value != "" {
        sessionId := Some(response.value);
      }
    }

    /**
     * The comment fetch settles: rows replace the list; a failed request (None)
     * is only logged. The effect fetches only once a session id is set.
     */
    method OnCommentsFetched(response: Option<seq<ServerRow>>)
      requires sessionId.Some?
      modifies this
      ensures comments == (if response.Some? then ToComments(response.value) else old(comments))
      ensures sessionId == old(sessionId) && showAll == old(showAll)
    {
      if response.Some? {
        comments := ToComments(response.value);
      }
    }

    /** The comments rendered in the list, as the code slices them. */
    function VisibleComments(): (r: seq<Comment>)
      reads this
      ensures showAll ==> r == comments
      ensures !showAll ==> r == comments[..if |comments| < 2 then |comments| else 2]
    {
      VisibleAsWritten(comments, showAll)
    }

    /** A click on the accordion button; without the button there is nothing to click. */
    method ClickShowMore()
      modifies this
      ensures showAll == (if ShowMoreButton(comments) then !old(showAll) else old(showAll))
      ensures comments == old(comments) && sessionId == old(sessionId)
    {
      if ShowMoreButton(comments) {
        showAll := !showAll;
      }
    }

    /** The text `downloadCSV` puts in the blob; it reads back as the comments' pairs. */
    method DownloadCsv() returns (csv: string)
      ensures ParseCsv(csv) == Some(Pairs(comments))
      ensures csv == CsvContent(comments)
    {
      csv := CsvContent(comments);
      CsvRoundTrip(comments);
    }
  }
}
