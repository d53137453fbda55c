/**
 * The help endpoints (routes/help.py): the constant endpoint metadata and
 * the markdown table rendered from it, one row per endpoint under a
 * two-line header.
 */
module Help {
  import opened Text

  /** One entry of `HELP_METADATA`; `body` lists the documented body fields. */
  datatype Endpoint = Endpoint(path: string, verb: string, description: string,
                               body: seq<(string, string)>)

  const HELP_METADATA: seq<Endpoint> := [
    Endpoint("/connect", "POST", "Authenticate client and start a new session",
             [("saveInteractions", "bool (optional): Whether to save .safetensors files during session")]),
    Endpoint("/keepalive", "POST", "Keep session alive to avoid timeout", []),
    Endpoint("/stream", "POST", "Stream model response for a given prompt",
             [("prompt", "str: Input text prompt")]),
    Endpoint("/clear", "POST", "Clear current conversation context (but preserve session)", []),
    Endpoint("/clearall", "POST", "Reset full model context and session state", []),
    Endpoint("/filetypes", "GET", "List supported file upload types", []),
    Endpoint("/convo/eraseHistory", "POST", "Delete all old session folders except the current one", []),
    Endpoint("/convo/list", "GET", "List saved session folders for the user", []),
    Endpoint("/convo/load/{name}", "POST", "Restore a specific conversation session by name", []),
    Endpoint("/convo/delete/{name}", "POST", "Delete a specific session folder (not the active one)", []),
    Endpoint("/convo/rename/{old}/{new}", "POST", "Rename a saved conversation session", []),
    Endpoint("/help", "GET", "Show a table of available API endpoints", []),
    Endpoint("/help/json", "GET", "Return structured metadata describing the API (this endpoint)", [])
  ]

  const TITLE_LINE: string := "| Method | Endpoint | Description |"
  const RULE_LINE: string := "|--------|----------|-------------|"
  const HEADER: string := TITLE_LINE + "\n" + RULE_LINE

  /** The table row of one endpoint. */
  function Row(e: Endpoint): string
  {
    "| " + e.verb + " | `" + e.path + "` | " + e.description + " |"
  }

  function Rows(meta: seq<Endpoint>): (rows: seq<string>)
    ensures |rows| == |meta|
    ensures forall i :: 0 <= i < |meta| ==> rows[i] == Row(meta[i])
  {
    if meta == [] then [] else [Row(meta[0])] + Rows(meta[1..])
  }

  /** The `help` text of `help_menu` for the given metadata. */
  function HelpText(meta: seq<Endpoint>): string
  {
    Join("\n", [HEADER] + Rows(meta))
  }

  /** `help_menu` */
  function HelpMenu(): string
  {
    HelpText(HELP_METADATA)
  }

  predicate SingleLine(e: Endpoint)
  {
    '\n' !in e.verb && '\n' !in e.path && '\n' !in e.description
  }

  lemma RowSingleLine(e: Endpoint)
    requires SingleLine(e)
    ensures '\n' !in Row(e)
  {
    var parts := ["| ", e.verb, " | `", e.path, "` | ", e.description, " |"];
    assert forall i :: 0 <= i < |parts| ==> '\n' !in parts[i];
  }

  lemma JoinHeader(rows: seq<string>)
    ensures Join("\n", [HEADER] + rows) == Join("\n", [TITLE_LINE, RULE_LINE] + rows)
  {
    var xs := [TITLE_LINE, RULE_LINE] + rows;
    assert xs[1..] == [RULE_LINE] + rows;
    assert ([HEADER] + rows)[1..] == rows;
    assert ([RULE_LINE] + rows)[1..] == rows;
  }

  /**
   * For single-line metadata the help text has the two header lines and
   * then exactly one line per endpoint, in metadata order.
   */
  lemma {:induction false} HelpTextLines(meta: seq<Endpoint>)
    requires forall i :: 0 <= i < |meta| ==> SingleLine(meta[i])
    ensures Split(HelpText(meta), '\n') == [TITLE_LINE, RULE_LINE] + Rows(meta)
  {
    var lines := [TITLE_LINE, RULE_LINE] + Rows(meta);
    JoinHeader(Rows(meta));
    forall i | 0 <= i < |lines|
      ensures '\n' !in lines[i]
    {
      if i >= 2 {
        RowSingleLine(meta[i - 2]);
      }
    }
    assert [ '\n' ] == "\n";
    SplitJoin(lines, '\n');
  }

  /** The help text is the header lines and then one row per endpoint, newline-joined. */
  lemma HelpTextShape(meta: seq<Endpoint>)
    ensures var lines := [TITLE_LINE, RULE_LINE] + Rows(meta);
      && HelpText(meta) == Join("\n", lines)
      && |lines| == |meta| + 2
      && lines[0] == TITLE_LINE && lines[1] == RULE_LINE
      && (forall i :: 0 <= i < |meta| ==> lines[i + 2] == Row(meta[i]))
  {
    JoinHeader(Rows(meta));
  }

  /**
   * The served table is fifteen newline-joined pieces: the two header lines,
   * then the row of each of the thirteen endpoints in metadata order.
   */
  lemma HelpMenuLines()
    ensures var lines := [TITLE_LINE, RULE_LINE] + Rows(HELP_METADATA);
      && HelpMenu() == Join("\n", lines)
      && |lines| == 15
      && (forall i :: 0 <= i < 13 ==> lines[i + 2] == Row(HELP_METADATA[i]))
  {
    HelpTextShape(HELP_METADATA);
  }
}
