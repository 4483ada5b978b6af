/** The batch loop of app.py lines 236-277: every line of the pasted
    descriptions becomes one result row, either the links built from the
    fields extracted from it or an ERROR row carrying the exception text. */
module Batch {
  import opened Wrappers
  import opened Fields
  import Text
  import Placement
  import AfLinks

  /** One row of the result table: Input, Placement Code, Click Tag,
      Appsflyer Click, Appsflyer IMP. */
  datatype Row = Row(input: string, placement: string, clickTag: string, afClick: string, afImp: string)

  /** The field extraction for one line (the chat completion and
      `json.loads`): the parsed fields, or the message of whatever it raised. */
  type Extractor = string -> Result<Record, string>

  /** The marker placed in the Placement Code column of a failed line. */
  const ErrorMarker: string := "ERROR"

  /** The line's links from already extracted fields: the placement code,
      then the click tag (which first reads `lp_url`), then the tracking
      links. It succeeds exactly when the sixteen placement fields are
      strings and `lp_url` is present, whatever `lp_url` holds. */
  function BuildRow(line: string, parsed: Record, net: AfLinks.Table, app: AfLinks.Table): (r: Result<Row, Failure>)
    ensures r.Ok? <==>
      (forall j :: 0 <= j < |Placement.PlacementKeys| ==> Placement.HasString(parsed, Placement.PlacementKeys[j])) &&
      Lookup(parsed, "lp_url").Some?
    ensures r.Ok? ==> r.value.input == line && r.value.placement != ErrorMarker
    ensures r.Ok? ==> Render(Lookup(parsed, "lp_url").value) + "?" <= r.value.clickTag
    ensures r.Err? && r.error.MissingKey? ==>
      (Lookup(parsed, r.error.key).None? && (r.error.key in Placement.PlacementKeys || r.error.key == "lp_url"))
    ensures r.Err? ==> r.error.MissingKey? || r.error.NotAString?
    ensures Placement.PlacementCode(parsed).Err? ==> r == Err(Placement.PlacementCode(parsed).error)
    ensures Placement.PlacementCode(parsed).Ok? && Lookup(parsed, "lp_url").None? ==> r == Err(MissingKey("lp_url"))
    ensures r.Ok? ==> Links(parsed, net, app).Ok? && r.value == Row(line, Placement.PlacementCode(parsed).value,
                                                                 RowClickTag(parsed), Links(parsed, net, app).value.click,
                                                                 Links(parsed, net, app).value.imp)
  {
    match Placement.PlacementCode(parsed)
    case Err(e) =>
      Placement.PlacementCodeFailure(parsed);
      Err(e)
    case Ok(placement) =>
      PlacementCodeNotMarker(parsed);
      match Lookup(parsed, "lp_url")
      case None => Err(MissingKey("lp_url"))
      case Some(lp) =>
        var clickTag := Placement.ClickTag(Render(lp), Placement.StringOf(parsed, "ams_id"),
                                           Placement.StringOf(parsed, "publisher"), Placement.StringOf(parsed, "campaign"));
        LinkKeysPresent(parsed);
        match Links(parsed, net, app)
        case Err(e) => Err(e)
        case Ok(links) => Ok(Row(line, placement, clickTag, links.click, links.imp))
  }

  /** The click tag of line 259 for a record whose `lp_url` is present. */
  function RowClickTag(parsed: Record): string
    requires Lookup(parsed, "lp_url").Some?
  {
    Placement.ClickTag(Render(Lookup(parsed, "lp_url").value), Placement.StringOf(parsed, "ams_id"),
                       Placement.StringOf(parsed, "publisher"), Placement.StringOf(parsed, "campaign"))
  }

  /** The call of line 261: `generate_af_links(parsed["buying_platform"], parsed["platform"], parsed)`. */
  function Links(parsed: Record, net: AfLinks.Table, app: AfLinks.Table): Result<AfLinks.Links, Failure>
  {
    AfLinks.GenerateAfLinks(Placement.StringOf(parsed, "buying_platform"), Placement.StringOf(parsed, "platform"), parsed, net, app)
  }

  /** A built row gives its inputs back: with dash-free fields, the placement
      code splits into the sixteen fields, and with `&`-free AMS ID,
      publisher and campaign, the click tag's query splits into its five
      parameters. */
  lemma RowRecoversFields(line: string, parsed: Record, net: AfLinks.Table, app: AfLinks.Table)
    requires BuildRow(line, parsed, net, app).Ok?
    ensures (forall j :: 0 <= j < |Placement.PlacementKeys| ==> '-' !in Placement.StringOf(parsed, Placement.PlacementKeys[j])) ==>
      var parts := Text.Split(BuildRow(line, parsed, net, app).value.placement, '-');
      |parts| == |Placement.PlacementKeys| &&
      forall j :: 0 <= j < |Placement.PlacementKeys| ==> Lookup(parsed, Placement.PlacementKeys[j]) == Some(Str(parts[j]))
    ensures var ams, pub, camp := Placement.StringOf(parsed, "ams_id"), Placement.StringOf(parsed, "publisher"), Placement.StringOf(parsed, "campaign");
      '&' !in ams && '&' !in pub && '&' !in camp ==>
      var lp := Render(Lookup(parsed, "lp_url").value);
      var tag := BuildRow(line, parsed, net, app).value.clickTag;
      |lp| < |tag| && Text.Split(tag[|lp| + 1..], '&') == Placement.ClickTagItems(ams, pub, camp)
  {
    var ams, pub, camp := Placement.StringOf(parsed, "ams_id"), Placement.StringOf(parsed, "publisher"), Placement.StringOf(parsed, "campaign");
    if forall j :: 0 <= j < |Placement.PlacementKeys| ==> '-' !in Placement.StringOf(parsed, Placement.PlacementKeys[j]) {
      Placement.PlacementCodeSplits(parsed);
    }
    if '&' !in ams && '&' !in pub && '&' !in camp {
      Placement.ClickTagSplits(Render(Lookup(parsed, "lp_url").value), ams, pub, camp);
    }
  }

  /** A placement code joins sixteen fields with dashes, so it is never the
      error marker. */
  lemma PlacementCodeNotMarker(parsed: Record)
    requires Placement.PlacementCode(parsed).Ok?
    ensures Placement.PlacementCode(parsed).value != ErrorMarker
  {
    var fields := seq(|Placement.PlacementKeys|, j requires 0 <= j < |Placement.PlacementKeys| =>
                        Placement.StringOf(parsed, Placement.PlacementKeys[j]));
    Text.JoinShowsSeparator(fields, '-');
    assert '-' !in ErrorMarker;
  }

  /** The five fields the tracking links read are among the placement fields. */
  lemma LinkKeysPresent(parsed: Record)
    requires forall j :: 0 <= j < |Placement.PlacementKeys| ==> Placement.HasString(parsed, Placement.PlacementKeys[j])
    ensures forall j :: 0 <= j < |AfLinks.LinkKeys| ==> Lookup(parsed, AfLinks.LinkKeys[j]).Some?
  {
    var ks := Placement.PlacementKeys;
    assert Placement.HasString(parsed, ks[5]) && Placement.HasString(parsed, ks[7]);
    assert Placement.HasString(parsed, ks[0]) && Placement.HasString(parsed, ks[1]) && Placement.HasString(parsed, ks[2]);
  }

  /** The ERROR row for a failure: the exception text in the Click Tag
      column, empty tracking links. */
  function ErrorRow(line: string, f: Failure): Row
  {
    Row(line, ErrorMarker, Message(f), "", "")
  }

  /** The body of the loop for one line, with the `except` clause. */
  function ProcessLine(extract: Extractor, net: AfLinks.Table, app: AfLinks.Table, line: string): (r: Row)
    ensures r.input == line
    ensures r.placement == ErrorMarker <==>
      (extract(line).Err? || BuildRow(line, extract(line).value, net, app).Err?)
    ensures extract(line).Err? ==> r == ErrorRow(line, ExtractionFailed(extract(line).error))
    ensures extract(line).Ok? && BuildRow(line, extract(line).value, net, app).Err? ==>
      r == ErrorRow(line, BuildRow(line, extract(line).value, net, app).error)
    ensures extract(line).Ok? && BuildRow(line, extract(line).value, net, app).Ok? ==>
      r == BuildRow(line, extract(line).value, net, app).value
    ensures r.placement == ErrorMarker ==> r.afClick == "" && r.afImp == ""
  {
    match extract(line)
    case Err(m) => ErrorRow(line, ExtractionFailed(m))
    case Ok(parsed) =>
      match BuildRow(line, parsed, net, app)
      case Err(f) => ErrorRow(line, f)
      case Ok(row) => row
  }

  /** A line yields links exactly when its extraction succeeds, all sixteen
      placement fields are strings and a landing page is present. */
  lemma LineSucceeds(extract: Extractor, net: AfLinks.Table, app: AfLinks.Table, line: string)
    ensures ProcessLine(extract, net, app, line).placement != ErrorMarker <==>
      && extract(line).Ok?
      && (forall j :: 0 <= j < |Placement.PlacementKeys| ==>
            Placement.HasString(extract(line).value, Placement.PlacementKeys[j]))
      && Lookup(extract(line).value, "lp_url").Some?
  {
  }

  /** The warnings `generate_af_links` displays while a line is processed
      (lines 201-202): only a missing app entry, and only when the line got
      as far as a network entry that exists. */
  function LineWarnings(extract: Extractor, net: AfLinks.Table, app: AfLinks.Table, line: string): (w: seq<AfLinks.Warning>)
    ensures |w| <= 1 && forall k :: 0 <= k < |w| ==> w[k].NoAppEntry?
  {
    match extract(line)
    case Err(_) => []
    case Ok(parsed) => RecordWarnings(line, parsed, net, app)
  }

  /** The same for a line whose fields were extracted: nothing when building
      its row raised, otherwise what `generate_af_links` showed (a built row
      always has its links, see `BuildRow`). */
  function RecordWarnings(line: string, parsed: Record, net: AfLinks.Table, app: AfLinks.Table): (w: seq<AfLinks.Warning>)
    ensures |w| <= 1 && forall k :: 0 <= k < |w| ==> w[k].NoAppEntry?
  {
    if BuildRow(line, parsed, net, app).Ok? && Links(parsed, net, app).Ok? then
      AfLinks.ShownWarnings(Placement.StringOf(parsed, "buying_platform"), Placement.StringOf(parsed, "platform"), parsed, net, app);
      Links(parsed, net, app).value.shown
    else []
  }

  /** A line displays a warning exactly when it yields a row with links,
      its network entry exists and its app entry does not. */
  lemma LineWarns(extract: Extractor, net: AfLinks.Table, app: AfLinks.Table, line: string)
    ensures LineWarnings(extract, net, app, line) != [] <==>
      && extract(line).Ok?
      && BuildRow(line, extract(line).value, net, app).Ok?
      && AfLinks.HasEntry(net, AfLinks.NetworkKey(extract(line).value))
      && !AfLinks.HasEntry(app, AfLinks.AppKey(extract(line).value))
    ensures LineWarnings(extract, net, app, line) != [] ==>
      LineWarnings(extract, net, app, line) == [AfLinks.NoAppEntry(AfLinks.AppKey(extract(line).value))]
    ensures LineWarnings(extract, net, app, line) != [] ==> ProcessLine(extract, net, app, line).placement != ErrorMarker
  {
    if extract(line).Ok? && BuildRow(line, extract(line).value, net, app).Ok? {
      var parsed := extract(line).value;
      AfLinks.ShownWarnings(Placement.StringOf(parsed, "buying_platform"), Placement.StringOf(parsed, "platform"), parsed, net, app);
    }
  }

  /** The items of a list of lists, in order. */
  function Concat<T>(ws: seq<seq<T>>): seq<T>
    decreases |ws|
  {
    if |ws| == 0 then [] else ws[0] + Concat(ws[1..])
  }

  /** Concatenating lists of at most one item each: no longer than the
      list of lists, empty exactly when every part is, and every item is
      the single item of some part. */
  lemma {:induction false} ConcatSingles<T>(ws: seq<seq<T>>)
    requires forall i :: 0 <= i < |ws| ==> |ws[i]| <= 1
    ensures |Concat(ws)| <= |ws|
    ensures Concat(ws) == [] <==> forall i :: 0 <= i < |ws| ==> ws[i] == []
    ensures forall x :: x in Concat(ws) ==> exists i :: 0 <= i < |ws| && ws[i] == [x]
    decreases |ws|
  {
    if |ws| > 0 {
      ConcatSingles(ws[1..]);
      assert forall i :: 1 <= i < |ws| ==> ws[1..][i - 1] == ws[i];
      forall x | x in Concat(ws)
        ensures exists i :: 0 <= i < |ws| && ws[i] == [x]
      {
        if x in ws[0] {
          assert ws[0] == [x];
        } else {
          var i :| 0 <= i < |ws[1..]| && ws[1..][i] == [x];
          assert ws[i + 1] == [x];
        }
      }
    }
  }

  /** Concatenating lists of missing-app-entry warnings gives only such warnings. */
  lemma {:induction false} ConcatAppWarnings(ws: seq<seq<AfLinks.Warning>>)
    requires forall i, k :: 0 <= i < |ws| && 0 <= k < |ws[i]| ==> ws[i][k].NoAppEntry?
    ensures forall k :: 0 <= k < |Concat(ws)| ==> Concat(ws)[k].NoAppEntry?
    decreases |ws|
  {
    if |ws| > 0 {
      assert forall i :: 1 <= i < |ws| ==> ws[1..][i - 1] == ws[i];
      ConcatAppWarnings(ws[1..]);
    }
  }

  /** Each line's displayed warnings, in line order. */
  function LineWarningLists(extract: Extractor, net: AfLinks.Table, app: AfLinks.Table, lines: seq<string>): seq<seq<AfLinks.Warning>>
  {
    seq(|lines|, i requires 0 <= i < |lines| => LineWarnings(extract, net, app, lines[i]))
  }

  /** The warnings displayed over a batch, line by line. */
  function Warnings(extract: Extractor, net: AfLinks.Table, app: AfLinks.Table, lines: seq<string>): seq<AfLinks.Warning>
  {
    Concat(LineWarningLists(extract, net, app, lines))
  }

  /** A batch displays at most one warning per line, each about a missing
      app entry, and none exactly when no line displays one. */
  lemma WarningsShape(extract: Extractor, net: AfLinks.Table, app: AfLinks.Table, lines: seq<string>)
    ensures |Warnings(extract, net, app, lines)| <= |lines|
    ensures forall k :: 0 <= k < |Warnings(extract, net, app, lines)| ==> Warnings(extract, net, app, lines)[k].NoAppEntry?
    ensures Warnings(extract, net, app, lines) == [] <==>
      forall i :: 0 <= i < |lines| ==> LineWarnings(extract, net, app, lines[i]) == []
  {
    var ws := LineWarningLists(extract, net, app, lines);
    assert forall i :: 0 <= i < |ws| ==> ws[i] == LineWarnings(extract, net, app, lines[i]);
    ConcatSingles(ws);
    ConcatAppWarnings(ws);
  }

  /** The lines of the pasted text: `descriptions.strip().split("\n")`. */
  function Lines(descriptions: string): (r: seq<string>)
    ensures |r| >= 1 && forall i :: 0 <= i < |r| ==> '\n' !in r[i]
  {
    Text.Split(Text.Strip(descriptions), '\n')
  }

  /** The result table, row by row. */
  function Rows(extract: Extractor, net: AfLinks.Table, app: AfLinks.Table, descriptions: string): seq<Row>
  {
    var lines := Lines(descriptions);
    seq(|lines|, i requires 0 <= i < |lines| => ProcessLine(extract, net, app, lines[i]))
  }

  /** The "Generate Links" action: nothing for an empty text area, otherwise
      one row per line, in order, each the outcome of that line alone, and
      the warnings displayed along the way. */
  method GenerateLinks(extract: Extractor, net: AfLinks.Table, app: AfLinks.Table, descriptions: string)
    returns (rows: Option<seq<Row>>, shown: seq<AfLinks.Warning>)
    ensures rows.None? <==> descriptions == ""
    ensures rows.Some? ==> rows.value == Rows(extract, net, app, descriptions)
    ensures rows.None? ==> shown == []
    ensures rows.Some? ==> shown == Warnings(extract, net, app, Lines(descriptions))
  {
    if descriptions == "" {
      return None, [];
    }
    var lines := Lines(descriptions);
    var acc := MapLines(line => ProcessLine(extract, net, app, line), lines);
    return Some(acc), Warnings(extract, net, app, lines);
  }

  /** Applies the per-line step to every line, in order. */
  method MapLines(step: string -> Row, lines: seq<string>) returns (rows: seq<Row>)
    ensures |rows| == |lines| && forall j :: 0 <= j < |lines| ==> rows[j] == step(lines[j])
  {
    rows := [];
    var i := 0;
    while i < |lines|
      invariant 0 <= i <= |lines|
      invariant |rows| == i
      invariant forall j :: 0 <= j < i ==> rows[j] == step(lines[j])
    {
      rows := rows + [step(lines[i])];
      i := i + 1;
    }
  }

  /** The Input column, joined with newlines, is the pasted text with its
      surrounding whitespace removed: no line is lost, split or reordered. */
  lemma {:induction false} InputsReassemble(extract: Extractor, net: AfLinks.Table, app: AfLinks.Table, descriptions: string)
    ensures var rows := Rows(extract, net, app, descriptions);
      Text.Join(seq(|rows|, i requires 0 <= i < |rows| => rows[i].input), '\n') == Text.Strip(descriptions)
  {
    var rows := Rows(extract, net, app, descriptions);
    var lines := Lines(descriptions);
    assert seq(|rows|, i requires 0 <= i < |rows| => rows[i].input) == lines;
    Text.JoinSplit(Text.Strip(descriptions), '\n');
  }
}
